/** Positions inside an expression tree: the places a `struct expr **` can point to while the AND/OR skeleton
    of one tree is being rewritten. */
module Paths {
  import opened Expressions
  import opened Equality

  /** From a node to one of its operands, left operand first. */
  type Path = seq<bool>

  function Child(e: Expr, right: bool): Expr
    requires e.Node?
  {
    if right then e.r else e.l
  }

  function WithChild(e: Expr, right: bool, c: Expr): Expr
    requires e.Node?
  {
    if right then e.(r := c) else e.(l := c)
  }

  predicate Valid(e: Expr, p: Path) {
    p == [] || (e.Node? && Valid(Child(e, p[0]), p[1..]))
  }

  function At(e: Expr, p: Path): Expr
    requires Valid(e, p)
  {
    if p == [] then e else At(Child(e, p[0]), p[1..])
  }

  function Put(e: Expr, p: Path, x: Expr): Expr
    requires Valid(e, p)
  {
    if p == [] then x else WithChild(e, p[0], Put(Child(e, p[0]), p[1..], x))
  }

  /** The path stays within the operands of one AND or OR: every node above its end is that connective. */
  predicate InGroup(op: Connective, g: Expr, p: Path) {
    p == [] || (Is(g, op) && InGroup(op, Child(g, p[0]), p[1..]))
  }

  /** An operand of the AND or OR `g`. */
  predicate IsLeaf(op: Connective, g: Expr, p: Path) {
    && InGroup(op, g, p)
    && (GroupPathValid(op, g, p); !Is(At(g, p), op))
  }

  lemma {:induction false} GroupPathValid(op: Connective, g: Expr, p: Path)
    requires InGroup(op, g, p)
    ensures Valid(g, p)
  {
    if p != [] { GroupPathValid(op, Child(g, p[0]), p[1..]); }
  }

  // ---------- reading and writing at a position ----------

  lemma {:induction false} PutAt(e: Expr, p: Path, x: Expr)
    requires Valid(e, p)
    ensures Valid(Put(e, p, x), p) && At(Put(e, p, x), p) == x
    ensures Put(e, p, At(e, p)) == e
    ensures forall y :: Put(Put(e, p, x), p, y) == Put(e, p, y)
  {
    if p != [] { PutAt(Child(e, p[0]), p[1..], x); }
  }

  lemma {:induction false} AtAppend(e: Expr, p: Path, r: Path)
    requires Valid(e, p) && Valid(At(e, p), r)
    ensures Valid(e, p + r) && At(e, p + r) == At(At(e, p), r)
    ensures forall x :: Put(e, p + r, x) == Put(e, p, Put(At(e, p), r, x))
  {
    if p == [] {
      assert p + r == r;
    } else {
      assert (p + r)[0] == p[0] && (p + r)[1..] == p[1..] + r;
      AtAppend(Child(e, p[0]), p[1..], r);
    }
  }

  lemma {:induction false} InGroupStep(op: Connective, g: Expr, p: Path, right: bool)
    requires InGroup(op, g, p) && Valid(g, p) && Is(At(g, p), op)
    ensures InGroup(op, g, p + [right])
    ensures Valid(g, p + [right]) && At(g, p + [right]) == Child(At(g, p), right)
  {
    if p == [] {
      assert p + [right] == [right];
    } else {
      assert (p + [right])[0] == p[0] && (p + [right])[1..] == p[1..] + [right];
      InGroupStep(op, Child(g, p[0]), p[1..], right);
    }
  }

  lemma {:induction false} PutSize(e: Expr, p: Path, x: Expr)
    requires Valid(e, p)
    ensures Size(Put(e, p, x)) == Size(e) - Size(At(e, p)) + Size(x)
    ensures p != [] ==> Size(At(e, p)) < Size(e)
    ensures Symbols(At(e, p)) <= Symbols(e)
    ensures Symbols(Put(e, p, x)) <= Symbols(e) + Symbols(x)
    ensures Tested(At(e, p)) <= Tested(e) && Tested(Put(e, p, x)) <= Tested(e) + Tested(x)
    ensures OnlySymbolsNegated(e) ==> OnlySymbolsNegated(At(e, p))
    ensures OnlySymbolsNegated(e) && OnlySymbolsNegated(x) ==> OnlySymbolsNegated(Put(e, p, x))
  {
    if p != [] { PutSize(Child(e, p[0]), p[1..], x); }
  }

  lemma {:induction false} PutHasYN(e: Expr, p: Path)
    requires Valid(e, p)
    ensures p != [] && IsYN(At(e, p)) ==> HasYN(e)
    ensures HasYN(At(e, p)) ==> HasYN(e)
  {
    if p != [] { PutHasYN(Child(e, p[0]), p[1..]); }
  }

  lemma {:induction false} PutValue(e: Expr, p: Path, x: Expr, v: Valuation)
    requires Valid(e, p) && Value(x, v) == Value(At(e, p), v)
    ensures Value(Put(e, p, x), v) == Value(e, v)
  {
    if p != [] { PutValue(Child(e, p[0]), p[1..], x, v); }
  }

  // ---------- the operands of one AND or OR ----------

  /** The two expressions have the same group of operands around the same connective nodes. */
  predicate SameShape(op: Connective, a: Expr, b: Expr) {
    if Is(a, op) then Is(b, op) && SameShape(op, a.l, b.l) && SameShape(op, a.r, b.r)
    else !Is(b, op)
  }

  lemma {:induction false} SameShapeTrans(op: Connective, a: Expr, b: Expr, c: Expr)
    requires SameShape(op, a, b) && SameShape(op, b, c)
    ensures SameShape(op, a, c)
  {
    if Is(a, op) {
      SameShapeTrans(op, a.l, b.l, c.l);
      SameShapeTrans(op, a.r, b.r, c.r);
    }
  }

  lemma {:induction false} SameShapeRefl(op: Connective, a: Expr)
    ensures SameShape(op, a, a)
  {
    if Is(a, op) {
      SameShapeRefl(op, a.l);
      SameShapeRefl(op, a.r);
    }
  }

  lemma {:induction false} SameShapePath(op: Connective, a: Expr, b: Expr, p: Path)
    requires SameShape(op, a, b) && InGroup(op, a, p) && Valid(a, p)
    ensures InGroup(op, b, p) && Valid(b, p)
    ensures SameShape(op, At(a, p), At(b, p))
  {
    if p != [] { SameShapePath(op, Child(a, p[0]), Child(b, p[0]), p[1..]); }
  }

  /** Connective nodes and operands of a group. */
  function GroupSize(op: Connective, e: Expr): nat {
    if Is(e, op) then 1 + GroupSize(op, e.l) + GroupSize(op, e.r) else 1
  }

  lemma {:induction false} SameGroupSize(op: Connective, a: Expr, b: Expr)
    requires SameShape(op, a, b)
    ensures GroupSize(op, a) == GroupSize(op, b)
  {
    if Is(a, op) {
      SameGroupSize(op, a.l, b.l);
      SameGroupSize(op, a.r, b.r);
    }
  }

  lemma {:induction false} PutLeafShape(op: Connective, g: Expr, p: Path, x: Expr)
    requires IsLeaf(op, g, p) && Valid(g, p) && !Is(x, op)
    ensures SameShape(op, g, Put(g, p, x))
  {
    if p != [] {
      PutLeafShape(op, Child(g, p[0]), p[1..], x);
      SameShapeRefl(op, Child(g, !p[0]));
    }
  }

  /** Writing one operand leaves every other operand alone. */
  lemma {:induction false} PutOther(op: Connective, g: Expr, p: Path, r: Path, x: Expr)
    requires IsLeaf(op, g, p) && IsLeaf(op, g, r) && p != r && Valid(g, p) && Valid(g, r)
    ensures Valid(Put(g, p, x), r) && At(Put(g, p, x), r) == At(g, r)
    ensures p != [] && r != []
  {
    if p[0] == r[0] {
      assert p == [p[0]] + p[1..] && r == [r[0]] + r[1..];
      PutOther(op, Child(g, p[0]), p[1..], r[1..], x);
    }
  }

  /** The combined value of the operands other than the one at `p`. */
  function Rest(op: Connective, g: Expr, p: Path, v: Valuation): Tristate
    requires InGroup(op, g, p) && Constants(v)
  {
    if p == [] then Value(Unit(op), v)
    else Apply(op, Rest(op, Child(g, p[0]), p[1..], v), Value(Child(g, !p[0]), v))
  }

  lemma {:induction false} ValueAt(op: Connective, g: Expr, p: Path, x: Expr, v: Valuation)
    requires InGroup(op, g, p) && Valid(g, p) && Constants(v)
    ensures Value(Put(g, p, x), v) == Apply(op, Value(x, v), Rest(op, g, p, v))
  {
    if p != [] {
      var c, d := Child(g, p[0]), Value(Child(g, !p[0]), v);
      ValueAt(op, c, p[1..], x, v);
      WithChildValue(op, g, p[0], Put(c, p[1..], x), v);
      ApplyLaws(op, Value(x, v), Rest(op, c, p[1..], v), d, NO, v);
    }
  }

  lemma WithChildValue(op: Connective, g: Expr, i: bool, c: Expr, v: Valuation)
    requires Is(g, op)
    ensures Value(WithChild(g, i, c), v) == Apply(op, Value(c, v), Value(Child(g, !i), v))
    ensures Value(g, v) == Apply(op, Value(Child(g, i), v), Value(Child(g, !i), v))
  {
  }

  /** Replacing two operands by two others with the same combined value. */
  lemma {:induction false} PutTwoValue(op: Connective, g: Expr, p: Path, r: Path, x: Expr, y: Expr, v: Valuation)
    requires IsLeaf(op, g, p) && IsLeaf(op, g, r) && p != r && Valid(g, p) && Valid(g, r) && Constants(v)
    requires Apply(op, Value(x, v), Value(y, v)) == Apply(op, Value(At(g, p), v), Value(At(g, r), v))
    requires Valid(Put(g, p, x), r)
    ensures Value(Put(Put(g, p, x), r, y), v) == Value(g, v)
  {
    var i := p[0];
    if i == r[0] {
      var c := Child(g, i);
      assert p == [i] + p[1..] && r == [i] + r[1..];
      PutOther(op, c, p[1..], r[1..], x);
      PutTwoValue(op, c, p[1..], r[1..], x, y, v);
      var d := Put(Put(c, p[1..], x), r[1..], y);
      assert Put(Put(g, p, x), r, y) == WithChild(g, i, d);
      WithChildValue(op, g, i, d, v);
    } else {
      PutApart(op, g, p, r, x, y, v);
    }
  }

  /** The same when they lie on different sides. */
  lemma PutApart(op: Connective, g: Expr, p: Path, r: Path, x: Expr, y: Expr, v: Valuation)
    requires IsLeaf(op, g, p) && IsLeaf(op, g, r) && p != [] && r != [] && p[0] != r[0] && Constants(v)
    requires Valid(g, p) && Valid(g, r) && Valid(Put(g, p, x), r)
    requires Apply(op, Value(x, v), Value(y, v)) == Apply(op, Value(At(g, p), v), Value(At(g, r), v))
    ensures Value(Put(Put(g, p, x), r, y), v) == Value(g, v)
  {
    var i, h := p[0], Put(g, p, x);
    var a, b := Child(g, i), Child(g, !i);
    PutBothSides(op, a, b, p[1..], r[1..], x, y, v);
    assert h == WithChild(g, i, Put(a, p[1..], x));
    assert Put(h, r, y) == WithChild(h, !i, Put(b, r[1..], y));
    WithChildValue(op, h, !i, Put(b, r[1..], y), v);
    WithChildValue(op, g, i, a, v);
  }

  lemma PutBothSides(op: Connective, a: Expr, b: Expr, p: Path, r: Path, x: Expr, y: Expr, v: Valuation)
    requires InGroup(op, a, p) && InGroup(op, b, r) && Valid(a, p) && Valid(b, r) && Constants(v)
    requires Apply(op, Value(x, v), Value(y, v)) == Apply(op, Value(At(a, p), v), Value(At(b, r), v))
    ensures Apply(op, Value(Put(a, p, x), v), Value(Put(b, r, y), v)) == Apply(op, Value(a, v), Value(b, v))
  {
    var ra, rb := Rest(op, a, p, v), Rest(op, b, r, v);
    ValueAt(op, a, p, x, v);
    ValueAt(op, a, p, At(a, p), v);
    ValueAt(op, b, r, y, v);
    ValueAt(op, b, r, At(b, r), v);
    PutAt(a, p, x);
    PutAt(b, r, y);
    ApplyLaws(op, Value(x, v), ra, Value(y, v), rb, v);
    ApplyLaws(op, Value(At(a, p), v), ra, Value(At(b, r), v), rb, v);
  }
}

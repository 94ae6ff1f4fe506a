/** Printing of expressions (expr_print in scripts/config/expr.c) against the expression grammar of parser.y, read by a
    shift-reduce parser that settles conflicts by the declared precedences. */
module Printing {
  import opened Expressions

  datatype Token = Name(sym: Symbol) | Rel(rel: Relation) | Op(op: Connective) | NotToken | Open | Close

  // ---------- printing ----------

  /** Expression types; NoKind is E_NONE. */
  datatype Kind =
    | NoKind | OrKind | AndKind | NotKind | EqualKind | UnequalKind | LthKind | LeqKind | GthKind | GeqKind | ListKind
    | SymbolKind

  function KindOf(e: Expr): Kind {
    match e
    case Sym(_) => SymbolKind
    case Not(_) => NotKind
    case Node(op, _, _) => OpKind(op)
    case Cmp(Equal, _, _) => EqualKind
    case Cmp(Unequal, _, _) => UnequalKind
    case Cmp(Lth, _, _) => LthKind
    case Cmp(Leq, _, _) => LeqKind
    case Cmp(Gth, _, _) => GthKind
    case Cmp(Geq, _, _) => GeqKind
  }

  function OpKind(op: Connective): Kind { if op.AndOp? then AndKind else OrKind }

  /** expr_compare_type; each case falls through to the next. */
  function CompareType(t1: Kind, t2: Kind): int {
    if t1 == t2 then 0
    else if t1 in {LeqKind, LthKind, GeqKind, GthKind} then
      if t2 in {EqualKind, UnequalKind, NotKind, AndKind, OrKind, ListKind, NoKind} then 1 else -1
    else if t1 in {EqualKind, UnequalKind} then if t2 in {NotKind, AndKind, OrKind, ListKind, NoKind} then 1 else -1
    else if t1 == NotKind then if t2 in {AndKind, OrKind, ListKind, NoKind} then 1 else -1
    else if t1 == AndKind then if t2 in {OrKind, ListKind, NoKind} then 1 else -1
    else if t1 == OrKind then if t2 in {ListKind, NoKind} then 1 else -1
    else if t1 == ListKind then if t2 == NoKind then 1 else -1
    else -1
  }

  predicate Bracketed(e: Expr, prev: Kind) { CompareType(prev, KindOf(e)) > 0 }

  /** expr_print, as tokens. */
  function Print(e: Expr, prev: Kind): seq<Token>
    decreases Size(e), 1
  {
    if Bracketed(e, prev) then [Open] + Inner(e) + [Close] else Inner(e)
  }

  function Inner(e: Expr): seq<Token>
    decreases Size(e), 0
  {
    match e
    case Sym(s) => [Name(s)]
    case Not(x) => [NotToken] + Print(x, NotKind)
    case Node(op, l, r) => Print(l, OpKind(op)) + [Op(op)] + Print(r, OpKind(op))
    case Cmp(rel, a, b) => [Name(a), Rel(rel), Name(b)]
  }

  /** Brackets stand around an OR below an AND, and around an AND or OR below a NOT, and nowhere else. */
  lemma BracketsExact(e: Expr, prev: Kind)
    requires prev in {NoKind, OrKind, AndKind, NotKind}
    ensures Bracketed(e, prev) <==> (prev == AndKind && Is(e, OrOp)) || (prev == NotKind && e.Node?)
  {
  }

  // ---------- the parser ----------

  datatype Item = Operand(sym: Symbol) | Exp(e: Expr) | Tok(t: Token)

  datatype Stack = Bottom | Push(below: Stack, top: Item)

  datatype Move = Shift | Reduce(to: Stack) | Accept(e: Expr) | Reject

  predicate Topped(s: Stack, t: Token) { s.Push? && s.top == Tok(t) }

  /** An expression is expected. */
  predicate Expects(s: Stack) {
    s.Bottom? || (s.top.Tok? && !s.top.t.Name? && !s.top.t.Rel? && !s.top.t.Close?)
  }

  /** The operand below a connective on top of `s`. */
  predicate Pending(s: Stack, op: Connective) { Topped(s, Op(op)) && s.below.Push? && s.below.top.Exp? }

  /** What the grammar does with the top of the stack, given the next token: AND and NOT bind before everything that
      can follow them, OR lets AND go first, equal connectives associate to the left. */
  function Decide(s: Stack, next: Option<Token>): Move {
    if s.Push? && s.top.Operand? then
      var b := s.below;
      if b.Push? && b.top.Tok? && b.top.t.Rel? then
        if b.below.Push? && b.below.top.Operand?
        then Reduce(Push(b.below.below, Exp(Cmp(b.top.t.rel, b.below.top.sym, s.top.sym))))
        else Reject
      else if next.Some? && next.value.Rel? then Shift
      else Reduce(Push(b, Exp(Sym(s.top.sym))))
    else if s.Push? && s.top.Exp? then
      var b, x := s.below, s.top.e;
      if Topped(b, NotToken) then Reduce(Push(b.below, Exp(Not(x))))
      else if Pending(b, AndOp) then Reduce(Push(b.below.below, Exp(Node(AndOp, b.below.top.e, x))))
      else if Pending(b, OrOp) && next != Some(Op(AndOp))
      then Reduce(Push(b.below.below, Exp(Node(OrOp, b.below.top.e, x))))
      else if next.Some? && next.value.Op? then Shift
      else if Topped(b, Open) && next == Some(Close) then Shift
      else if b.Bottom? && next.None? then Accept(x)
      else Reject
    else if Topped(s, Close) then
      if s.below.Push? && s.below.top.Exp? && Topped(s.below.below, Open)
      then Reduce(Push(s.below.below.below, s.below.top))
      else Reject
    else if Expects(s) then
      if next.Some? && (next.value.Name? || next.value == NotToken || next.value == Open) then Shift else Reject
    else if next.Some? && next.value.Name? then Shift
    else Reject
  }

  function Shifted(s: Stack, t: Token): Stack { Push(s, if t.Name? then Operand(t.sym) else Tok(t)) }

  function Weight(s: Stack): nat {
    match s
    case Bottom => 0
    case Push(b, i) => Weight(b) + (if i.Operand? then 2 else 1)
  }

  function Next(ts: seq<Token>): Option<Token> { if ts == [] then None else Some(ts[0]) }

  /** Reduction makes progress. */
  lemma DecideProgress(s: Stack, next: Option<Token>)
    ensures Decide(s, next).Shift? ==> next.Some?
    ensures Decide(s, next).Reduce? ==> Weight(Decide(s, next).to) < Weight(s)
  {
    if s.Push? && s.below.Push? {
      var b := s.below;
      assert Weight(b) == Weight(b.below) + if b.top.Operand? then 2 else 1;
      if b.below.Push? { assert Weight(b.below) == Weight(b.below.below) + if b.below.top.Operand? then 2 else 1; }
    }
  }

  /** The outcome of parsing `ts` with `s` on the stack. */
  function Run(s: Stack, ts: seq<Token>): Option<Expr>
    decreases 3 * |ts| + Weight(s)
  {
    DecideProgress(s, Next(ts));
    match Decide(s, Next(ts))
    case Shift => Run(Shifted(s, ts[0]), ts[1..])
    case Reduce(to) => Run(to, ts)
    case Accept(e) => Some(e)
    case Reject => None
  }

  method Parse(ts: seq<Token>) returns (r: Option<Expr>)
    ensures r == Run(Bottom, ts)
    ensures forall e :: r == Some(e) <==> Derives(2, ts, e)
  {
    forall e ensures Run(Bottom, ts) == Some(e) <==> Derives(2, ts, e) { ParseExact(ts, e); }
    var stack, rest := Bottom, ts;
    while true
      invariant Run(stack, rest) == Run(Bottom, ts)
      decreases 3 * |rest| + Weight(stack)
    {
      DecideProgress(stack, Next(rest));
      match Decide(stack, Next(rest)) {
        case Shift => stack, rest := Shifted(stack, rest[0]), rest[1..];
        case Reduce(to) => stack := to;
        case Accept(e) => return Some(e);
        case Reject => return None;
      }
    }
  }

  // ---------- association ----------

  /** The same expression with runs of one connective associated to the left. */
  function LeftForm(e: Expr): Expr
    decreases Size(e), 1
  {
    match e
    case Not(x) => Not(LeftForm(x))
    case Node(op, l, r) => AppendTo(op, LeftForm(l), r)
    case _ => e
  }

  /** `x` followed by the operands of `e`. */
  function AppendTo(op: Connective, x: Expr, e: Expr): Expr
    decreases Size(e), 2
  {
    if Is(e, op) then AppendTo(op, AppendTo(op, x, e.l), e.r) else Node(op, x, LeftForm(e))
  }

  lemma {:induction false} LeftFormValue(e: Expr, v: Valuation)
    ensures Value(LeftForm(e), v) == Value(e, v)
    decreases Size(e), 1
  {
    match e {
      case Not(x) => LeftFormValue(x, v);
      case Node(op, l, r) =>
        LeftFormValue(l, v);
        AppendToValue(op, LeftForm(l), r, v);
      case _ =>
    }
  }

  lemma {:induction false} AppendToValue(op: Connective, x: Expr, e: Expr, v: Valuation)
    ensures Value(AppendTo(op, x, e), v) == Apply(op, Value(x, v), Value(e, v))
    decreases Size(e), 2
  {
    if Is(e, op) {
      AppendToValue(op, x, e.l, v);
      AppendToValue(op, AppendTo(op, x, e.l), e.r, v);
    } else {
      LeftFormValue(e, v);
    }
  }

  // ---------- the grammar ----------

  /** The connective of a level: AND binds on level 1, OR on level 2; level 0 is what neither splits. */
  function LevelOp(level: nat): Connective { if level == 1 then AndOp else OrOp }

  /** The tokens are a derivation of the expression on that level: a symbol, a comparison, NOT before something of level
      0, brackets around anything, or operands of the connective, the right one from the level below. */
  ghost predicate Derives(level: nat, ts: seq<Token>, e: Expr)
    decreases |ts|, level
  {
    if level == 0 then
      || (e.Sym? && ts == [Name(e.sym)])
      || (e.Cmp? && ts == [Name(e.left), Rel(e.rel), Name(e.right)])
      || (e.Not? && ts != [] && ts[0] == NotToken && Derives(0, ts[1..], e.e))
      || (|ts| >= 2 && ts[0] == Open && ts[|ts| - 1] == Close && Derives(2, ts[1..|ts| - 1], e))
    else
      || Derives(level - 1, ts, e)
      || (Is(e, LevelOp(level)) && exists i: nat :: SplitsAt(level, ts, e, i))
  }

  ghost predicate SplitsAt(level: nat, ts: seq<Token>, e: Expr, i: nat)
    requires level > 0 && e.Node?
    decreases |ts|, level, 0
  {
    i < |ts| && ts[i] == Op(e.op) && Derives(level, ts[..i], e.l) && Derives(level - 1, ts[i + 1..], e.r)
  }

  lemma DerivesNode(level: nat, u: seq<Token>, w: seq<Token>, l: Expr, r: Expr)
    requires level > 0 && Derives(level, u, l) && Derives(level - 1, w, r)
    ensures Derives(level, u + [Op(LevelOp(level))] + w, Node(LevelOp(level), l, r))
  {
    var ts := u + [Op(LevelOp(level))] + w;
    assert ts[..|u|] == u && ts[|u| + 1..] == w;
    assert SplitsAt(level, ts, Node(LevelOp(level), l, r), |u|);
  }

  lemma {:induction false} DerivesUp(low: nat, high: nat, ts: seq<Token>, e: Expr)
    requires low <= high && Derives(low, ts, e)
    ensures Derives(high, ts, e)
    decreases high
  {
    if low < high { DerivesUp(low, high - 1, ts, e); }
  }

  // ---------- what is derived is parsed ----------

  /** What may follow an expression: the end, a closing bracket, or a connective. */
  predicate Follows(rest: seq<Token>) { rest == [] || rest[0] == Close || rest[0].Op? }

  /** The same without AND. */
  predicate FollowsOr(rest: seq<Token>) { Follows(rest) && Next(rest) != Some(Op(AndOp)) }

  /** Nothing on top of `s` that an expression would be reduced into before a following AND. */
  predicate Fresh(s: Stack) { Expects(s) && !Topped(s, NotToken) && !Topped(s, Op(AndOp)) }

  predicate Outermost(s: Stack) { s.Bottom? || Topped(s, Open) }

  /** Where, and before what, an expression of that level is read as a whole. */
  predicate Whole(level: nat, s: Stack, rest: seq<Token>) {
    if level == 0 then Expects(s) && Follows(rest)
    else if level == 1 then Fresh(s) && Follows(rest)
    else Outermost(s) && FollowsOr(rest)
  }

  lemma RunShift(s: Stack, t: Token, rest: seq<Token>)
    requires Decide(s, Some(t)).Shift?
    ensures Run(s, [t] + rest) == Run(Shifted(s, t), rest)
  {
    assert ([t] + rest)[1..] == rest;
  }

  lemma {:induction false} DerivedIsRead(level: nat, ts: seq<Token>, e: Expr, s: Stack, rest: seq<Token>)
    requires level <= 2 && Derives(level, ts, e) && Whole(level, s, rest)
    ensures Run(s, ts + rest) == Run(Push(s, Exp(e)), rest)
    decreases |ts|, level
  {
    if level == 0 {
      PrimaryIsRead(ts, e, s, rest);
    } else if Derives(level - 1, ts, e) {
      DerivedIsRead(level - 1, ts, e, s, rest);
    } else {
      var i: nat :| SplitsAt(level, ts, e, i);
      var op, u, w := LevelOp(level), ts[..i], ts[i + 1..];
      assert ts + rest == u + ([Op(op)] + (w + rest));
      DerivedIsRead(level, u, e.l, s, [Op(op)] + (w + rest));
      RunShift(Push(s, Exp(e.l)), Op(op), w + rest);
      DerivedIsRead(level - 1, w, e.r, Push(Push(s, Exp(e.l)), Tok(Op(op))), rest);
    }
  }

  lemma {:induction false} PrimaryIsRead(ts: seq<Token>, e: Expr, s: Stack, rest: seq<Token>)
    requires Derives(0, ts, e) && Whole(0, s, rest)
    ensures Run(s, ts + rest) == Run(Push(s, Exp(e)), rest)
    decreases |ts|, 0, 0
  {
    if e.Sym? && ts == [Name(e.sym)] {
      RunShift(s, Name(e.sym), rest);
    } else if e.Cmp? && ts == [Name(e.left), Rel(e.rel), Name(e.right)] {
      CmpIsRead(e, s, rest);
    } else if ts[0] == NotToken {
      assert ts + rest == [NotToken] + (ts[1..] + rest);
      RunShift(s, NotToken, ts[1..] + rest);
      DerivedIsRead(0, ts[1..], e.e, Push(s, Tok(NotToken)), rest);
    } else {
      var inner, t := ts[1..|ts| - 1], Push(s, Tok(Open));
      assert ts + rest == [Open] + (inner + ([Close] + rest));
      RunShift(s, Open, inner + ([Close] + rest));
      DerivedIsRead(2, inner, e, t, [Close] + rest);
      RunShift(Push(t, Exp(e)), Close, rest);
    }
  }

  lemma CmpIsRead(e: Expr, s: Stack, rest: seq<Token>)
    requires e.Cmp? && Whole(0, s, rest)
    ensures Run(s, [Name(e.left), Rel(e.rel), Name(e.right)] + rest) == Run(Push(s, Exp(e)), rest)
  {
    var t := Push(s, Operand(e.left));
    assert [Name(e.left), Rel(e.rel), Name(e.right)] + rest
        == [Name(e.left)] + ([Rel(e.rel)] + ([Name(e.right)] + rest));
    RunShift(s, Name(e.left), [Rel(e.rel)] + ([Name(e.right)] + rest));
    RunShift(t, Rel(e.rel), [Name(e.right)] + rest);
    RunShift(Push(t, Tok(Rel(e.rel))), Name(e.right), rest);
  }

  // ---------- what is parsed is derived ----------

  /** The level on which an expression on top of `s` has been derived, given the next token. */
  function TopLevel(s: Stack, next: Option<Token>): nat {
    if Topped(s, NotToken) || Topped(s, Op(AndOp)) then 0
    else if Topped(s, Op(OrOp)) || next == Some(Op(AndOp)) then 1
    else 2
  }

  predicate UnderRel(s: Stack) { s.Push? && s.top.Operand? && Expects(s.below) }

  predicate OverRel(s: Stack) { s.Push? && s.top.Tok? && s.top.t.Rel? && s.below.Push? && s.below.top.Operand? }

  /** An expression is on top of `s`, on the level on which that token is put on top of it. */
  predicate Under(s: Stack, t: Token) {
    && s.Push? && s.top.Exp?
    && (if t == Op(AndOp) then Fresh(s.below) else Outermost(s.below))
    && (t == Close ==> Topped(s.below, Open))
  }

  function UnderLevel(t: Token): nat { if t == Op(AndOp) then 1 else 2 }

  /** The stack, no expression on top, is a reading of the tokens so far. */
  ghost predicate Reading(s: Stack, ts: seq<Token>)
    decreases s, 0
  {
    if s.Bottom? then ts == []
    else
      && ts != []
      && (match s.top
          case Exp(_) => false
          case Operand(a) =>
            ts[|ts| - 1] == Name(a) && (Expects(s.below) || OverRel(s.below)) && Reading(s.below, Init(ts))
          case Tok(t) =>
            && ts[|ts| - 1] == t && !t.Name?
            && (if t.Op? || t == Close then
                  Under(s.below, t) && Holds(s.below.below, s.below.top.e, UnderLevel(t), Init(ts))
                else (if t.Rel? then UnderRel(s.below) else Expects(s.below)) && Reading(s.below, Init(ts))))
  }

  function Init(ts: seq<Token>): seq<Token>
    requires ts != []
  {
    ts[..|ts| - 1]
  }

  /** The tokens read are those of `s` and behind them a derivation of the expression on that level. */
  ghost predicate Holds(s: Stack, e: Expr, level: nat, ts: seq<Token>)
    decreases s, 2
  {
    exists i: nat :: HoldsFrom(s, e, level, ts, i)
  }

  ghost predicate HoldsFrom(s: Stack, e: Expr, level: nat, ts: seq<Token>, i: nat)
    decreases s, 1
  {
    i <= |ts| && Reading(s, ts[..i]) && Derives(level, ts[i..], e)
  }

  /** The stack is a reading of the tokens so far, with `next` to come. */
  ghost predicate Parsing(s: Stack, ts: seq<Token>, next: Option<Token>) {
    if s.Push? && s.top.Exp?
    then Expects(s.below) && Holds(s.below, s.top.e, TopLevel(s.below, next), ts)
    else Reading(s, ts)
  }

  /** An expression put on top of a stack. */
  lemma ParsingExp(s: Stack, e: Expr, level: nat, u: seq<Token>, w: seq<Token>, next: Option<Token>)
    requires Reading(s, u) && Expects(s) && Derives(level, w, e) && level <= TopLevel(s, next)
    ensures Parsing(Push(s, Exp(e)), u + w, next)
  {
    DerivesUp(level, TopLevel(s, next), w, e);
    assert (u + w)[..|u|] == u && (u + w)[|u|..] == w;
    assert HoldsFrom(s, e, TopLevel(s, next), u + w, |u|);
  }

  lemma ParsingShift(s: Stack, ts: seq<Token>, t: Token, next: Option<Token>)
    requires Parsing(s, ts, Some(t)) && Decide(s, Some(t)).Shift?
    ensures Parsing(Shifted(s, t), ts + [t], next)
  {
    assert Init(ts + [t]) == ts;
    if s.Push? && s.top.Exp? { ShiftOverExp(s.below, s.top.e, ts, t); }
  }

  lemma ShiftOverExp(b: Stack, x: Expr, ts: seq<Token>, t: Token)
    requires Parsing(Push(b, Exp(x)), ts, Some(t)) && Decide(Push(b, Exp(x)), Some(t)).Shift?
    ensures Reading(Push(Push(b, Exp(x)), Tok(t)), ts + [t])
  {
    assert Holds(b, x, TopLevel(b, Some(t)), ts);
    var i: nat :| HoldsFrom(b, x, TopLevel(b, Some(t)), ts, i);
    PendingTop(b, ts[..i]);
    assert t == Op(AndOp) || Outermost(b) by {
      if b.Push? && b.top.t.Op? { assert b.top.t.op == AndOp || b.top.t.op == OrOp; }
    }
    DerivesUp(TopLevel(b, Some(t)), UnderLevel(t), ts[i..], x);
    assert Init(ts + [t]) == ts;
    assert HoldsFrom(b, x, UnderLevel(t), ts, i);
  }

  /** A connective in a reading has its left operand below it. */
  lemma PendingTop(s: Stack, ts: seq<Token>)
    requires Reading(s, ts)
    ensures s.Push? && s.top.Tok? && s.top.t.Op? ==> Pending(s, s.top.t.op)
  {
  }

  lemma ParsingReduce(s: Stack, ts: seq<Token>, next: Option<Token>)
    requires Parsing(s, ts, next) && Decide(s, next).Reduce?
    ensures Parsing(Decide(s, next).to, ts, next)
  {
    if s.top.Operand? {
      ReduceOperand(s.below, s.top.sym, ts, next);
    } else if s.top.Exp? {
      assert Holds(s.below, s.top.e, TopLevel(s.below, next), ts);
      var i: nat :| HoldsFrom(s.below, s.top.e, TopLevel(s.below, next), ts, i);
      ReduceExp(s.below, s.top.e, ts, i, next);
    } else {
      ReduceBrackets(s, ts, next);
    }
  }

  lemma ReduceOperand(b: Stack, a: Symbol, ts: seq<Token>, next: Option<Token>)
    requires Reading(Push(b, Operand(a)), ts) && Decide(Push(b, Operand(a)), next).Reduce?
    ensures Parsing(Decide(Push(b, Operand(a)), next).to, ts, next)
  {
    var u := Init(ts);
    assert ts == u + [Name(a)] && Reading(b, u);
    if OverRel(b) {
      ReduceCmp(b.below.below, b.below.top.sym, b.top.t.rel, a, u, next);
    } else {
      ParsingExp(b, Sym(a), 0, u, [Name(a)], next);
    }
  }

  lemma ReduceCmp(c: Stack, a: Symbol, rel: Relation, b: Symbol, u: seq<Token>, next: Option<Token>)
    requires Reading(Push(Push(c, Operand(a)), Tok(Rel(rel))), u)
    ensures Parsing(Push(c, Exp(Cmp(rel, a, b))), u + [Name(b)], next)
  {
    var w := Init(u);
    assert Reading(Push(c, Operand(a)), w);
    assert u == w + [Rel(rel)] && w == Init(w) + [Name(a)];
    assert u + [Name(b)] == Init(w) + [Name(a), Rel(rel), Name(b)];
    ParsingExp(c, Cmp(rel, a, b), 0, Init(w), [Name(a), Rel(rel), Name(b)], next);
  }

  lemma ReduceExp(b: Stack, x: Expr, ts: seq<Token>, i: nat, next: Option<Token>)
    requires Expects(b) && HoldsFrom(b, x, TopLevel(b, next), ts, i) && Decide(Push(b, Exp(x)), next).Reduce?
    ensures Parsing(Decide(Push(b, Exp(x)), next).to, ts, next)
  {
    var us, w := ts[..i], ts[i..];
    assert us == Init(us) + [b.top.t] && ts == us + w;
    if Topped(b, NotToken) {
      assert ts == Init(us) + ([NotToken] + w);
      ParsingExp(b.below, Not(x), 0, Init(us), [NotToken] + w, next);
    } else {
      ReduceNode(b.below.below, b.below.top.e, b.top.t.op, x, Init(us), w, next);
      assert ts == Init(us) + [Op(b.top.t.op)] + w;
    }
  }

  function Level(op: Connective): nat { if op.AndOp? then 1 else 2 }

  lemma ReduceNode(c: Stack, l: Expr, op: Connective, r: Expr, us: seq<Token>, w: seq<Token>, next: Option<Token>)
    requires Holds(c, l, Level(op), us) && Derives(Level(op) - 1, w, r)
    requires if op.AndOp? then Fresh(c) else Outermost(c) && next != Some(Op(AndOp))
    ensures Parsing(Push(c, Exp(Node(op, l, r))), us + [Op(op)] + w, next)
  {
    var i: nat :| HoldsFrom(c, l, Level(op), us, i);
    DerivesNode(Level(op), us[i..], w, l, r);
    assert us + [Op(op)] + w == us[..i] + (us[i..] + [Op(op)] + w);
    ParsingExp(c, Node(op, l, r), Level(op), us[..i], us[i..] + [Op(op)] + w, next);
  }

  lemma ReduceBrackets(s: Stack, ts: seq<Token>, next: Option<Token>)
    requires Topped(s, Close) && Reading(s, ts)
    ensures Parsing(Push(s.below.below.below, s.below.top), ts, next)
  {
    var c, x, vs := s.below.below, s.below.top.e, Init(ts);
    assert Holds(c, x, 2, vs);
    var i: nat :| HoldsFrom(c, x, 2, vs, i);
    var us, w := vs[..i], vs[i..];
    assert Reading(c, us);
    assert us == Init(us) + [Open] && ts == Init(us) + ([Open] + w + [Close]);
    ParsingExp(c.below, x, 0, Init(us), [Open] + w + [Close], next);
  }

  lemma {:induction false} RunDerives(s: Stack, done: seq<Token>, rest: seq<Token>)
    requires Parsing(s, done, Next(rest)) && Run(s, rest).Some?
    ensures Derives(2, done + rest, Run(s, rest).value)
    decreases 3 * |rest| + Weight(s)
  {
    DecideProgress(s, Next(rest));
    match Decide(s, Next(rest)) {
      case Shift =>
        ParsingShift(s, done, rest[0], Next(rest[1..]));
        assert done + rest == done + [rest[0]] + rest[1..];
        RunDerives(Shifted(s, rest[0]), done + [rest[0]], rest[1..]);
      case Reduce(to) =>
        ParsingReduce(s, done, Next(rest));
        RunDerives(to, done, rest);
      case Accept(e) =>
        var i: nat :| HoldsFrom(Bottom, e, 2, done, i);
        assert done[i..] == done + rest;
      case Reject =>
    }
  }

  /** The parser accepts exactly the derivations of the grammar, with the expression derived. */
  lemma ParseExact(ts: seq<Token>, e: Expr)
    ensures Run(Bottom, ts) == Some(e) <==> Derives(2, ts, e)
  {
    if Run(Bottom, ts) == Some(e) {
      RunDerives(Bottom, [], ts);
      assert [] + ts == ts;
    }
    if Derives(2, ts, e) {
      DerivedIsRead(2, ts, e, Bottom, []);
      assert ts + [] == ts;
    }
  }

  /** What the precedences come to: AND before OR, NOT before both but after a comparison, equal connectives from the
      left. */
  lemma Precedences(a: Symbol, b: Symbol, c: Symbol, rel: Relation)
    ensures Run(Bottom, [Name(a), Op(OrOp), Name(b), Op(AndOp), Name(c)]) ==
      Some(Node(OrOp, Sym(a), Node(AndOp, Sym(b), Sym(c))))
    ensures Run(Bottom, [Name(a), Op(AndOp), Name(b), Op(OrOp), Name(c)]) ==
      Some(Node(OrOp, Node(AndOp, Sym(a), Sym(b)), Sym(c)))
    ensures Run(Bottom, [Name(a), Op(OrOp), Name(b), Op(OrOp), Name(c)]) ==
      Some(Node(OrOp, Node(OrOp, Sym(a), Sym(b)), Sym(c)))
    ensures Run(Bottom, [NotToken, Name(a), Op(AndOp), Name(b)]) == Some(Node(AndOp, Not(Sym(a)), Sym(b)))
    ensures Run(Bottom, [NotToken, Name(a), Rel(rel), Name(b)]) == Some(Not(Cmp(rel, a, b)))
  {
    var x, y, z := Sym(a), Sym(b), Sym(c);
    Primary(x);
    Primary(y);
    Primary(z);
    DerivesUp(0, 1, [Name(b)], y);
    DerivesUp(0, 1, [Name(a)], x);
    DerivesUp(0, 1, [Name(c)], z);
    DerivesUp(0, 2, [Name(a)], x);
    DerivesNode(1, [Name(b)], [Name(c)], y, z);
    DerivesNode(2, [Name(a)], [Name(b)] + [Op(AndOp)] + [Name(c)], x, Node(AndOp, y, z));
    ParseIs([Name(a)] + [Op(OrOp)] + ([Name(b)] + [Op(AndOp)] + [Name(c)]),
            [Name(a), Op(OrOp), Name(b), Op(AndOp), Name(c)], Node(OrOp, x, Node(AndOp, y, z)));
    DerivesNode(1, [Name(a)], [Name(b)], x, y);
    DerivesUp(1, 2, [Name(a)] + [Op(AndOp)] + [Name(b)], Node(AndOp, x, y));
    DerivesNode(2, [Name(a)] + [Op(AndOp)] + [Name(b)], [Name(c)], Node(AndOp, x, y), z);
    ParseIs([Name(a)] + [Op(AndOp)] + [Name(b)] + [Op(OrOp)] + [Name(c)],
            [Name(a), Op(AndOp), Name(b), Op(OrOp), Name(c)], Node(OrOp, Node(AndOp, x, y), z));
    DerivesNode(2, [Name(a)], [Name(b)], x, y);
    DerivesNode(2, [Name(a)] + [Op(OrOp)] + [Name(b)], [Name(c)], Node(OrOp, x, y), z);
    ParseIs([Name(a)] + [Op(OrOp)] + [Name(b)] + [Op(OrOp)] + [Name(c)],
            [Name(a), Op(OrOp), Name(b), Op(OrOp), Name(c)], Node(OrOp, Node(OrOp, x, y), z));
    Negations(a, b, rel);
  }

  lemma Primary(e: Expr)
    requires e.Sym?
    ensures Derives(0, [Name(e.sym)], e)
  {
  }

  lemma ParseIs(ts: seq<Token>, us: seq<Token>, e: Expr)
    requires ts == us && Derives(2, ts, e)
    ensures Run(Bottom, us) == Some(e)
  {
    ParseExact(ts, e);
  }

  lemma Negations(a: Symbol, b: Symbol, rel: Relation)
    ensures Run(Bottom, [NotToken, Name(a), Op(AndOp), Name(b)]) == Some(Node(AndOp, Not(Sym(a)), Sym(b)))
    ensures Run(Bottom, [NotToken, Name(a), Rel(rel), Name(b)]) == Some(Not(Cmp(rel, a, b)))
  {
    assert [NotToken, Name(a)][1..] == [Name(a)];
    assert Derives(0, [NotToken, Name(a)], Not(Sym(a)));
    DerivesUp(0, 1, [NotToken, Name(a)], Not(Sym(a)));
    Primary(Sym(b));
    DerivesNode(1, [NotToken, Name(a)], [Name(b)], Not(Sym(a)), Sym(b));
    var ts := [NotToken, Name(a)] + [Op(AndOp)] + [Name(b)];
    DerivesUp(1, 2, ts, Node(AndOp, Not(Sym(a)), Sym(b)));
    ParseIs(ts, [NotToken, Name(a), Op(AndOp), Name(b)], Node(AndOp, Not(Sym(a)), Sym(b)));
    var us := [NotToken, Name(a), Rel(rel), Name(b)];
    assert us[1..] == [Name(a), Rel(rel), Name(b)];
    assert Derives(0, us, Not(Cmp(rel, a, b)));
    DerivesUp(0, 2, us, Not(Cmp(rel, a, b)));
    ParseIs(us, us, Not(Cmp(rel, a, b)));
  }

  // ---------- printed expressions read back ----------

  lemma {:induction false} PrintedPrimary(e: Expr, prev: Kind)
    requires e.Node? ==> Bracketed(e, prev)
    ensures Derives(0, Print(e, prev), LeftForm(e))
    decreases Size(e), 1
  {
    if Bracketed(e, prev) {
      if e.Node? {
        PrintedRun(e);
      } else {
        PrintedInner(e);
        DerivesUp(0, 2, Inner(e), LeftForm(e));
      }
    } else {
      PrintedInner(e);
    }
  }

  lemma {:induction false} PrintedInner(e: Expr)
    requires !e.Node?
    ensures Derives(0, Inner(e), LeftForm(e))
    decreases Size(e), 0
  {
    if e.Not? {
      PrintedPrimary(e.e, NotKind);
    }
  }

  /** A run of one connective, without brackets around it. */
  lemma {:induction false} PrintedRun(e: Expr)
    requires e.Node?
    ensures Derives(Level(e.op), Inner(e), LeftForm(e)) && Derives(2, Inner(e), LeftForm(e))
    decreases Size(e), 0
  {
    PrintedOperand(e.op, e.l);
    PrintedMore(e.op, Print(e.l, OpKind(e.op)), LeftForm(e.l), e.r);
    DerivesUp(Level(e.op), 2, Inner(e), LeftForm(e));
  }

  /** Its first operand. */
  lemma {:induction false} PrintedOperand(op: Connective, e: Expr)
    ensures Derives(Level(op), Print(e, OpKind(op)), LeftForm(e))
    decreases Size(e), 2
  {
    if e.Node? && !Bracketed(e, OpKind(op)) {
      PrintedRun(e);
      DerivesUp(Level(e.op), Level(op), Inner(e), LeftForm(e));
    } else {
      PrintedPrimary(e, OpKind(op));
      DerivesUp(0, Level(op), Print(e, OpKind(op)), LeftForm(e));
    }
  }

  /** Further operands. */
  lemma {:induction false} PrintedMore(op: Connective, u: seq<Token>, x: Expr, e: Expr)
    requires Derives(Level(op), u, x)
    ensures Derives(Level(op), u + [Op(op)] + Print(e, OpKind(op)), AppendTo(op, x, e))
    decreases Size(e), 3
  {
    var k := OpKind(op);
    if Is(e, op) {
      PrintedMore(op, u, x, e.l);
      PrintedMore(op, u + [Op(op)] + Print(e.l, k), AppendTo(op, x, e.l), e.r);
      assert u + [Op(op)] + Print(e, k) == u + [Op(op)] + Print(e.l, k) + [Op(op)] + Print(e.r, k);
    } else {
      PrintedLast(op, e);
      DerivesNode(Level(op), u, Print(e, k), x, LeftForm(e));
    }
  }

  lemma {:induction false} PrintedLast(op: Connective, e: Expr)
    requires !Is(e, op)
    ensures Derives(Level(op) - 1, Print(e, OpKind(op)), LeftForm(e))
    decreases Size(e), 2
  {
    if e.Node? && !Bracketed(e, OpKind(op)) {
      PrintedRun(e);
    } else {
      PrintedPrimary(e, OpKind(op));
      DerivesUp(0, Level(op) - 1, Print(e, OpKind(op)), LeftForm(e));
    }
  }

  /** What expr_fprint writes reads back as the same expression up to association. */
  lemma PrintParse(e: Expr)
    ensures Run(Bottom, Print(e, NoKind)) == Some(LeftForm(e))
  {
    if e.Node? {
      PrintedRun(e);
    } else {
      PrintedPrimary(e, NoKind);
      DerivesUp(0, 2, Print(e, NoKind), LeftForm(e));
    }
    ParseExact(Print(e, NoKind), LeftForm(e));
  }

  lemma {:induction false} LeftFormPrint(e: Expr, prev: Kind)
    ensures Print(LeftForm(e), prev) == Print(e, prev)
    decreases Size(e), 1
  {
    match e {
      case Not(x) => LeftFormPrint(x, NotKind);
      case Node(op, l, r) =>
        LeftFormPrint(l, OpKind(op));
        AppendToPrint(op, LeftForm(l), r);
      case _ =>
    }
  }

  lemma {:induction false} AppendToPrint(op: Connective, x: Expr, e: Expr)
    ensures Is(AppendTo(op, x, e), op)
    ensures Inner(AppendTo(op, x, e)) == Print(x, OpKind(op)) + [Op(op)] + Print(e, OpKind(op))
    decreases Size(e), 2
  {
    var k := OpKind(op);
    if Is(e, op) {
      var y := AppendTo(op, x, e.l);
      AppendToPrint(op, x, e.l);
      AppendToPrint(op, y, e.r);
      assert Print(y, k) == Inner(y) && Print(e, k) == Inner(e);
      assert Inner(y) + [Op(op)] + Print(e.r, k)
          == Print(x, k) + [Op(op)] + (Print(e.l, k) + [Op(op)] + Print(e.r, k));
    } else {
      LeftFormPrint(e, k);
    }
  }

  /** Two expressions print alike exactly when they differ in association only. */
  lemma PrintedAlike(e: Expr, d: Expr)
    ensures Print(e, NoKind) == Print(d, NoKind) <==> LeftForm(e) == LeftForm(d)
  {
    PrintParse(e);
    PrintParse(d);
    LeftFormPrint(e, NoKind);
    LeftFormPrint(d, NoKind);
  }
}

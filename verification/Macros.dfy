/** The $(...) macro expander (scripts/config/preprocess.c): string expansion, clause splitting, variable lookup with
    the recursion count, against a recursive definition. The built-in functions, the environment and the C library's
    number reader are parameters; None is the error exit. */
module Macros {
  import opened Expressions

  datatype Definition = Definition(name: string, value: string, recursive: bool)

  datatype Builtin = Missing | Failing | Answer(text: string)

  /** `number` is the value of a text that reads as a number as a whole, otherwise 0. */
  datatype Setup = Setup(vars: seq<Definition>, number: string -> nat, builtin: (string, seq<string>) -> Builtin,
                         env: string -> Option<string>)

  type Counts = seq<nat>

  const MAX_COUNT: nat := 1000
  const MAX_ARGS: nat := 16

  // ---------- the recursion budget ----------

  /** How many more expansions the counts allow. */
  function Budget(c: Counts): nat {
    if c == [] then 0 else (if c[0] <= MAX_COUNT then MAX_COUNT + 1 - c[0] else 0) + Budget(c[1..])
  }

  lemma {:induction false} BudgetDrops(c: Counts, i: nat)
    requires i < |c| && c[i] <= MAX_COUNT
    ensures Budget(c[i := c[i] + 1]) == Budget(c) - 1
  {
    var d := c[i := c[i] + 1];
    if i == 0 {
      assert d[1..] == c[1..];
    } else {
      BudgetDrops(c[1..], i - 1);
      assert d[1..] == c[1..][i - 1 := c[i] + 1];
    }
  }

  // ---------- references and clauses ----------

  /** Where the bracket that closes the reference is, `nest` brackets deep. */
  function CloseAt(s: string, nest: nat): (q: Option<nat>)
    ensures q.Some? ==> q.value < |s|
  {
    if s == [] then None
    else if s[0] == ')' && nest == 0 then Some(0)
    else Later(CloseAt(s[1..], if s[0] == '(' then nest + 1 else if s[0] == ')' then nest - 1 else nest))
  }

  function Later(q: Option<nat>): Option<nat> { if q.Some? then Some(q.value + 1) else None }

  /** The nesting depth after a text, counted from `nest`. */
  function Depth(s: string, nest: int): int {
    if s == [] then nest else Depth(s[1..], if s[0] == '(' then nest + 1 else if s[0] == ')' then nest - 1 else nest)
  }

  /** The brackets of a text match, counted from `nest` open ones. */
  ghost predicate Balanced(s: string, nest: int) {
    Depth(s, nest) == 0 && forall k {:trigger Depth(s[..k], nest)} :: 0 <= k <= |s| ==> Depth(s[..k], nest) >= 0
  }

  /** The pieces between the commas outside all brackets. */
  function Split(s: string, nest: int): (ps: seq<string>)
    ensures |ps| >= 1
    ensures forall p :: p in ps ==> |p| <= |s|
  {
    if s == [] then [[]]
    else if nest == 0 && s[0] == ',' then [[]] + Split(s[1..], 0)
    else
      var ps := Split(s[1..], if s[0] == '(' then nest + 1 else if s[0] == ')' then nest - 1 else nest);
      [[s[0]] + ps[0]] + ps[1..]
  }

  // ---------- expansion ----------

  function Joined(a: Option<string>, b: Option<string>): Option<string> {
    if a.Some? && b.Some? then Some(a.value + b.value) else None
  }

  lemma JoinedOnce(a: string, b: string, c: Option<string>)
    ensures Joined(Some(a), Joined(Some(b), c)) == Joined(Some(a + b), c)
  {
    if c.Some? { assert a + (b + c.value) == a + b + c.value; }
  }

  lemma JoinedTwice(a: Option<string>, b: Option<string>, c: Option<string>)
    ensures Joined(a, Joined(b, c)) == Joined(Joined(a, b), c)
  {
    if a.Some? && b.Some? { JoinedOnce(a.value, b.value, c); }
  }

  lemma JoinedNone(c: Option<string>)
    ensures Joined(Some([]), c) == c
  {
    if c.Some? { assert [] + c.value == c.value; }
  }

  /** A string with its references replaced. */
  function Expand(x: Setup, c: Counts, s: string, args: seq<string>): Option<string>
    requires |c| == |x.vars|
    decreases Budget(c), |s|, 0, 0
  {
    if s == [] then Some([])
    else if s[0] != '$' then Joined(Some([s[0]]), Expand(x, c, s[1..], args))
    else if |s| == 1 || s[1] != '(' then Joined(Some("$"), Expand(x, c, s[1..], args))
    else match CloseAt(s[2..], 0)
      case None => None
      case Some(q) => Joined(Clause(x, c, s[2..2 + q], args), Expand(x, c, s[q + 3..], args))
  }

  function Listed(a: seq<string>, b: Option<seq<string>>): Option<seq<string>> {
    if b.Some? then Some(a + b.value) else None
  }

  function ExpandAll(x: Setup, c: Counts, ps: seq<string>, args: seq<string>, ghost n: nat): Option<seq<string>>
    requires |c| == |x.vars| && forall p :: p in ps ==> |p| <= n
    decreases Budget(c), n, 1, |ps|
  {
    if ps == [] then Some([])
    else
      var first := Expand(x, c, ps[0], args);
      if first.None? then None else Listed([first.value], ExpandAll(x, c, ps[1..], args, n))
  }

  lemma ListedOnce(a: seq<string>, b: seq<string>, c: Option<seq<string>>)
    ensures Listed(a, Listed(b, c)) == Listed(a + b, c)
  {
    if c.Some? { assert a + (b + c.value) == a + b + c.value; }
  }

  lemma ListedNone(c: Option<seq<string>>)
    ensures Listed([], c) == c
  {
    if c.Some? { assert [] + c.value == c.value; }
  }

  /** eval_clause: an argument of the surrounding call, or a variable, a built-in function or an environment
      variable. */
  function Clause(x: Setup, c: Counts, s: string, args: seq<string>): Option<string>
    requires |c| == |x.vars|
    decreases Budget(c), |s|, 2, 0
  {
    var n := x.number(s);
    if 0 < n <= |args| then Some(args[n - 1])
    else
      var ps := Split(s, 0);
      if |ps| > MAX_ARGS + 1 then None
      else
        var words := ExpandAll(x, c, ps, args, |s|);
        if words.None? then None else Call(x, c, words.value[0], words.value[1..])
  }

  /** The first variable of that name. */
  function Lookup(vars: seq<Definition>, name: string): (i: Option<nat>)
    ensures i.Some? ==> i.value < |vars| && vars[i.value].name == name
    ensures i.None? ==> forall k :: 0 <= k < |vars| ==> vars[k].name != name
  {
    if vars == [] then None else if vars[0].name == name then Some(0) else Later(Lookup(vars[1..], name))
  }

  function Call(x: Setup, c: Counts, name: string, args: seq<string>): Option<string>
    requires |c| == |x.vars|
    decreases Budget(c), 0, 0, 1
  {
    match Lookup(x.vars, name)
    case Some(i) => Variable(x, c, i, args)
    case None =>
      match x.builtin(name, args)
      case Answer(text) => Some(text)
      case Failing => None
      case Missing => if args == [] && x.env(name).Some? then x.env(name) else Some("")
  }

  /** variable_expand: a variable that is being expanded may be entered again only with arguments, and not without
      end. */
  function Variable(x: Setup, c: Counts, i: nat, args: seq<string>): Option<string>
    requires |c| == |x.vars| && i < |c|
    decreases Budget(c), 0, 0, 0
  {
    if (args == [] && c[i] > 0) || c[i] > MAX_COUNT then None
    else
      BudgetDrops(c, i);
      if x.vars[i].recursive then Expand(x, c[i := c[i] + 1], x.vars[i].value, args) else Some(x.vars[i].value)
  }

  // ---------- the expander ----------

  /** A text in front of the first piece. */
  function Glue(t: string, ps: seq<string>): seq<string>
    requires ps != []
  {
    [t + ps[0]] + ps[1..]
  }

  function Nested(nest: int, ch: char): int { if ch == '(' then nest + 1 else if ch == ')' then nest - 1 else nest }

  lemma GlueNone(ps: seq<string>)
    requires ps != []
    ensures Glue([], ps) == ps
  {
    assert [] + ps[0] == ps[0] && [ps[0]] + ps[1..] == ps;
  }

  lemma GlueOne(t: string, ch: char, ps: seq<string>)
    requires ps != []
    ensures Glue(t, [[ch] + ps[0]] + ps[1..]) == Glue(t + [ch], ps)
  {
    assert t + ([ch] + ps[0]) == t + [ch] + ps[0];
    assert ([[ch] + ps[0]] + ps[1..])[1..] == ps[1..];
  }

  lemma GlueCut(t: string, ps: seq<string>)
    requires ps != []
    ensures Glue(t, [[]] + ps) == [t] + Glue([], ps)
  {
    GlueNone(ps);
    assert ([[]] + ps)[1..] == ps && t + [] == t;
  }

  lemma SplitStep(s: string, prev: nat, p: nat, nest: int)
    requires prev <= p < |s|
    ensures nest == 0 && s[p] == ',' ==>
      Glue(s[prev..p], Split(s[p..], nest)) == [s[prev..p]] + Glue([], Split(s[p + 1..], 0))
    ensures !(nest == 0 && s[p] == ',') ==>
      Glue(s[prev..p], Split(s[p..], nest)) == Glue(s[prev..p + 1], Split(s[p + 1..], Nested(nest, s[p])))
  {
    assert s[p..][1..] == s[p + 1..] && s[prev..p + 1] == s[prev..p] + [s[p]];
    if nest == 0 && s[p] == ',' {
      GlueCut(s[prev..p], Split(s[p + 1..], 0));
    } else {
      GlueOne(s[prev..p], s[p], Split(s[p + 1..], Nested(nest, s[p])));
    }
  }

  /** The pieces up to `prev`, and how far the current one has been read. */
  ghost predicate Splitting(s: string, argv: seq<string>, prev: nat, p: nat, nest: int) {
    prev <= p <= |s| && Split(s, 0) == argv + Glue(s[prev..p], Split(s[p..], nest))
  }

  lemma SplittingCut(s: string, argv: seq<string>, prev: nat, p: nat)
    requires Splitting(s, argv, prev, p, 0) && p < |s| && s[p] == ','
    ensures Splitting(s, argv + [s[prev..p]], p + 1, p + 1, 0) && |Split(s, 0)| >= |argv| + 2
  {
    SplitStep(s, prev, p, 0);
    assert s[p + 1..p + 1] == [];
    Regroup(argv, [s[prev..p]], Glue([], Split(s[p + 1..], 0)));
  }

  lemma Regroup<T>(a: seq<T>, b: seq<T>, c: seq<T>)
    ensures a + (b + c) == a + b + c
  {
  }

  lemma SplittingOn(s: string, argv: seq<string>, prev: nat, p: nat, nest: int)
    requires Splitting(s, argv, prev, p, nest) && p < |s| && !(nest == 0 && s[p] == ',')
    ensures Splitting(s, argv, prev, p + 1, Nested(nest, s[p]))
  {
    SplitStep(s, prev, p, nest);
  }

  lemma SplittingStart(s: string)
    ensures Splitting(s, [], 0, 0, 0)
  {
    GlueNone(Split(s, 0));
    assert s[0..] == s && s[0..0] == [];
  }

  lemma SplittingEnd(s: string, argv: seq<string>, prev: nat, nest: int)
    requires Splitting(s, argv, prev, |s|, nest)
    ensures Split(s, 0) == argv + [s[prev..]]
  {
    assert s[|s|..] == [] && s[prev..|s|] == s[prev..];
    GlueLast(s[prev..]);
  }

  /** The loop of eval_clause that splits the clause. */
  method SplitClause(s: string) returns (r: Option<seq<string>>)
    ensures r == if |Split(s, 0)| > MAX_ARGS + 1 then None else Some(Split(s, 0))
  {
    var argv: seq<string>, prev, p, nest := [], 0, 0, 0;
    SplittingStart(s);
    while p < |s|
      invariant Splitting(s, argv, prev, p, nest) && |argv| <= MAX_ARGS
    {
      if nest == 0 && s[p] == ',' {
        SplittingCut(s, argv, prev, p);
        if |argv| >= MAX_ARGS { return None; }
        argv := argv + [s[prev..p]];
        prev := p + 1;
      } else {
        SplittingOn(s, argv, prev, p, nest);
        nest := Nested(nest, s[p]);
      }
      p := p + 1;
    }
    SplittingEnd(s, argv, prev, nest);
    r := Some(argv + [s[prev..]]);
  }

  lemma GlueLast(t: string)
    ensures Glue(t, [[]]) == [t]
  {
    assert t + [] == t;
  }

  /** The loop of expand_dollar_with_args that looks for the closing bracket. */
  method FindClose(s: string, p: nat) returns (q: Option<nat>)
    requires p <= |s|
    ensures q == match CloseAt(s[p..], 0) case None => None case Some(k) => Some(p + k)
  {
    var i, nest := p, 0;
    while i < |s|
      invariant p <= i <= |s|
      invariant CloseAt(s[p..], 0) == match CloseAt(s[i..], nest) case None => None case Some(k) => Some(i - p + k)
    {
      assert s[i..][1..] == s[i + 1..];
      if s[i] == '(' {
        nest := nest + 1;
      } else if s[i] == ')' {
        if nest == 0 { return Some(i); }
        nest := nest - 1;
      }
      i := i + 1;
    }
    q := None;
  }

  /** What stands at the dollar sign before p expands to r and ends at `next`. */
  ghost predicate Referenced(x: Setup, c: Counts, s: string, p: nat, args: seq<string>, r: Option<string>, next: nat)
    requires |c| == |x.vars| && 0 < p <= |s|
  {
    p <= next <= |s| && Expand(x, c, s[p - 1..], args) == Joined(r, Expand(x, c, s[next..], args))
  }

  /** The reference whose bracket stands at p ends at q. */
  predicate ClosesAt(s: string, p: nat, q: Option<nat>)
    requires p < |s|
  {
    q == match CloseAt(s[p + 1..], 0) case None => None case Some(k) => Some(p + 1 + k)
  }

  lemma ExpandReference(x: Setup, c: Counts, s: string, p: nat, q: Option<nat>, args: seq<string>, r: Option<string>)
    requires |c| == |x.vars| && 0 < p < |s| && s[p - 1] == '$' && s[p] == '(' && ClosesAt(s, p, q)
    requires q.Some? && p < q.value < |s| && r == Clause(x, c, s[p + 1..q.value], args)
    ensures Referenced(x, c, s, p, args, r, q.value + 1)
  {
    var t := s[p - 1..];
    var k := q.value - (p + 1);
    assert t[2..] == s[p + 1..] && t[2..2 + k] == s[p + 1..q.value] && t[k + 3..] == s[q.value + 1..];
  }

  lemma OpenReference(x: Setup, c: Counts, s: string, p: nat, args: seq<string>)
    requires |c| == |x.vars| && 0 < p < |s| && s[p - 1] == '$' && s[p] == '(' && ClosesAt(s, p, None)
    ensures Referenced(x, c, s, p, args, None, p)
  {
    assert s[p - 1..][2..] == s[p + 1..];
  }

  lemma LoneDollar(x: Setup, c: Counts, s: string, p: nat, args: seq<string>)
    requires |c| == |x.vars| && 0 < p <= |s| && s[p - 1] == '$' && (p == |s| || s[p] != '(')
    ensures Referenced(x, c, s, p, args, Some("$"), p)
  {
    assert s[p - 1..][1..] == s[p..];
  }

  class Expander {
    const x: Setup
    var expCount: Counts

    constructor (setup: Setup)
      ensures x == setup && expCount == seq(|setup.vars|, _ => 0)
    {
      x := setup;
      expCount := seq(|setup.vars|, _ => 0);
    }

    /** expand_string_with_args. */
    method ExpandString(s: string, args: seq<string>) returns (r: Option<string>)
      requires |expCount| == |x.vars|
      modifies `expCount
      ensures r == Expand(x, old(expCount), s, args) && (r.Some? ==> expCount == old(expCount))
      decreases Budget(expCount), |s|, 2, 0
    {
      ghost var c := expCount;
      var out, start, p := [], 0, 0;
      assert s[0..] == s && [] + s[0..0] == [];
      JoinedNone(Expand(x, c, s, args));
      while true
        invariant start <= p <= |s| && expCount == c
        invariant Expand(x, c, s, args) == Joined(Some(out + s[start..p]), Expand(x, c, s[p..], args))
        decreases |s| - p
      {
        if p < |s| && s[p] == '$' {
          var expansion, next := ExpandDollar(s, p + 1, args);
          if expansion.None? { return None; }
          JoinedOnce(out + s[start..p], expansion.value, Expand(x, c, s[next..], args));
          out := out + s[start..p] + expansion.value;
          start, p := next, next;
          assert out + s[p..p] == out;
          continue;
        }
        if p == |s| { break; }
        assert s[p..][1..] == s[p + 1..] && out + s[start..p + 1] == out + s[start..p] + [s[p]];
        JoinedOnce(out + s[start..p], [s[p]], Expand(x, c, s[p + 1..], args));
        p := p + 1;
      }
      assert s[p..] == [] && out + s[start..p] + [] == out + s[start..p];
      r := Some(out + s[start..p]);
    }

    /** Strings expanded one after the other: each gives what it would give alone. */
    method ExpandEach(ss: seq<string>) returns (rs: seq<string>)
      requires expCount == seq(|x.vars|, _ => 0)
      modifies `expCount
      ensures |rs| <= |ss| && forall k :: 0 <= k < |rs| ==> Expand(x, seq(|x.vars|, _ => 0), ss[k], []) == Some(rs[k])
      ensures |rs| < |ss| ==> Expand(x, seq(|x.vars|, _ => 0), ss[|rs|], []) == None
    {
      rs := [];
      while |rs| < |ss|
        invariant |rs| <= |ss| && expCount == seq(|x.vars|, _ => 0)
        invariant forall k :: 0 <= k < |rs| ==> Expand(x, seq(|x.vars|, _ => 0), ss[k], []) == Some(rs[k])
      {
        var r := ExpandString(ss[|rs|], []);
        if r.None? { return; }
        rs := rs + [r.value];
      }
    }

    /** expand_dollar_with_args: p is behind the dollar sign, `next` behind the reference. */
    method ExpandDollar(s: string, p: nat, args: seq<string>) returns (r: Option<string>, next: nat)
      requires |expCount| == |x.vars| && 0 < p <= |s| && s[p - 1] == '$'
      modifies `expCount
      ensures r.Some? ==> expCount == old(expCount)
      ensures Referenced(x, old(expCount), s, p, args, r, next)
      decreases Budget(expCount), |s|, 1, 0
    {
      ghost var c := expCount;
      if p == |s| || s[p] != '(' {
        LoneDollar(x, c, s, p, args);
        return Some("$"), p;
      }
      var q := FindClose(s, p + 1);
      if q.None? {
        OpenReference(x, c, s, p, args);
        return None, p;
      }
      r := EvalClause(s[p + 1..q.value], args);
      ExpandReference(x, c, s, p, q, args, r);
      next := q.value + 1;
    }

    /** eval_clause. */
    method EvalClause(s: string, args: seq<string>) returns (r: Option<string>)
      requires |expCount| == |x.vars|
      modifies `expCount
      ensures r == Clause(x, old(expCount), s, args) && (r.Some? ==> expCount == old(expCount))
      decreases Budget(expCount), |s|, 4, 0
    {
      ghost var c := expCount;
      var n := x.number(s);
      if 0 < n <= |args| { return Some(args[n - 1]); }
      var pieces := SplitClause(s);
      if pieces.None? { return None; }
      var words := ExpandPieces(pieces.value, args, |s|);
      if words.None? { return None; }
      var name, rest := words.value[0], words.value[1..];
      if Lookup(x.vars, name).Some? {
        r := VariableExpand(Lookup(x.vars, name).value, rest);
        return;
      }
      match x.builtin(name, rest) {
        case Answer(text) => return Some(text);
        case Failing => return None;
        case Missing =>
          if rest == [] && x.env(name).Some? { return x.env(name); }
          return Some("");
      }
    }

    method ExpandPieces(ps: seq<string>, args: seq<string>, ghost n: nat) returns (r: Option<seq<string>>)
      requires |expCount| == |x.vars| && ps != [] && forall p :: p in ps ==> |p| <= n
      modifies `expCount
      ensures r == ExpandAll(x, old(expCount), ps, args, n) && (r.Some? ==>
          expCount == old(expCount) && |r.value| == |ps|)
      decreases Budget(expCount), n, 3, 0
    {
      ghost var c := expCount;
      var words, i := [], 0;
      assert ps[0..] == ps;
      ListedNone(ExpandAll(x, c, ps, args, n));
      while i < |ps|
        invariant i <= |ps| && expCount == c && |words| == i
        invariant ExpandAll(x, c, ps, args, n) == Listed(words, ExpandAll(x, c, ps[i..], args, n))
      {
        assert ps[i..][1..] == ps[i + 1..];
        var word := ExpandString(ps[i], args);
        if word.None? { return None; }
        ListedOnce(words, [word.value], ExpandAll(x, c, ps[i + 1..], args, n));
        words := words + [word.value];
        i := i + 1;
      }
      assert words + [] == words;
      r := Some(words);
    }

    /** variable_expand, for a variable that exists. */
    method VariableExpand(i: nat, args: seq<string>) returns (r: Option<string>)
      requires |expCount| == |x.vars| && i < |expCount|
      modifies `expCount
      ensures r == Variable(x, old(expCount), i, args) && (r.Some? ==> expCount == old(expCount))
      decreases Budget(expCount), 0, 0, 0
    {
      if |args| == 0 && expCount[i] > 0 { return None; }
      if expCount[i] > MAX_COUNT { return None; }
      BudgetDrops(expCount, i);
      expCount := expCount[i := expCount[i] + 1];
      if x.vars[i].recursive {
        r := ExpandString(x.vars[i].value, args);
        if r.None? { return; }
      } else {
        r := Some(x.vars[i].value);
      }
      expCount := expCount[i := expCount[i] - 1];
      assert expCount == old(expCount);
    }
  }

  // ---------- what holds of expansion ----------

  /** A clause cut out for evaluation has matching brackets, so the nesting of its split never becomes negative. */
  lemma {:induction false} CloseBalanced(s: string, nest: nat)
    requires CloseAt(s, nest).Some?
    ensures s[CloseAt(s, nest).value] == ')' && Balanced(s[..CloseAt(s, nest).value], nest)
  {
    var q := CloseAt(s, nest).value;
    if !(s[0] == ')' && nest == 0) {
      var n := Nested(nest, s[0]);
      CloseBalanced(s[1..], n);
      forall k | 0 < k <= q
        ensures Depth(s[..k], nest) == Depth(s[1..][..k - 1], n)
      {
        assert s[..k][1..] == s[1..][..k - 1];
      }
      assert s[..q][..q] == s[..q];
      forall k | 0 <= k <= q
        ensures Depth(s[..q][..k], nest) >= 0
      {
        assert s[..q][..k] == s[..k];
        if k > 0 { assert s[1..][..q - 1][..k - 1] == s[1..][..k - 1]; }
      }
    }
  }

  predicate TopComma(s: string, nest: int) {
    s != [] && ((nest == 0 && s[0] == ',') || TopComma(s[1..], Nested(nest, s[0])))
  }

  function JoinWithCommas(ps: seq<string>): string
    requires ps != []
  {
    if |ps| == 1 then ps[0] else ps[0] + "," + JoinWithCommas(ps[1..])
  }

  lemma JoinOne(ch: char, ps: seq<string>)
    requires ps != []
    ensures JoinWithCommas([[ch] + ps[0]] + ps[1..]) == [ch] + JoinWithCommas(ps)
  {
    var qs := [[ch] + ps[0]] + ps[1..];
    assert qs[1..] == ps[1..];
    if |ps| > 1 {
      var more := JoinWithCommas(ps[1..]);
      assert [ch] + ps[0] + "," + more == [ch] + (ps[0] + "," + more);
    }
  }

  lemma JoinCut(ps: seq<string>)
    requires ps != []
    ensures JoinWithCommas([[]] + ps) == [','] + JoinWithCommas(ps)
  {
    assert ([[]] + ps)[1..] == ps && [] + "," + JoinWithCommas(ps) == [','] + JoinWithCommas(ps);
  }

  /** Splitting loses nothing. */
  lemma {:induction false} SplitJoin(s: string, nest: int)
    ensures JoinWithCommas(Split(s, nest)) == s
  {
    if s != [] {
      assert s == [s[0]] + s[1..];
      if nest == 0 && s[0] == ',' {
        SplitJoin(s[1..], 0);
        JoinCut(Split(s[1..], 0));
      } else {
        SplitJoin(s[1..], Nested(nest, s[0]));
        JoinOne(s[0], Split(s[1..], Nested(nest, s[0])));
      }
    }
  }

  lemma TopCommaOn(ch: char, s: string, nest: int)
    requires !(nest == 0 && ch == ',')
    ensures TopComma([ch] + s, nest) == TopComma(s, Nested(nest, ch))
  {
    assert ([ch] + s)[1..] == s;
  }

  lemma CommaPiece(s: string, nest: int, i: nat)
    requires s != [] && nest == 0 && s[0] == ',' && 0 < i < |Split(s, nest)|
    ensures i <= |Split(s[1..], 0)| && Split(s, nest)[i] == Split(s[1..], 0)[i - 1]
  {}

  lemma OtherPiece(s: string, nest: int, i: nat)
    requires s != [] && !(nest == 0 && s[0] == ',') && 0 < i < |Split(s, nest)|
    ensures i < |Split(s[1..], Nested(nest, s[0]))| && Split(s, nest)[i] == Split(s[1..], Nested(nest, s[0]))[i]
  {}

  /** The first piece ends before a comma outside brackets. */
  lemma {:induction false} FirstPiece(s: string, nest: int)
    ensures !TopComma(Split(s, nest)[0], nest)
  {
    if s != [] && !(nest == 0 && s[0] == ',') {
      FirstPiece(s[1..], Nested(nest, s[0]));
      TopCommaOn(s[0], Split(s[1..], Nested(nest, s[0]))[0], nest);
    }
  }

  /** The pieces behind the first one are those of the text behind the first comma outside brackets. */
  lemma {:induction false} LaterPiece(s: string, nest: int, i: nat) returns (rest: string)
    requires 0 < i < |Split(s, nest)|
    ensures |rest| < |s| && i <= |Split(rest, 0)| && Split(s, nest)[i] == Split(rest, 0)[i - 1]
  {
    if nest == 0 && s[0] == ',' {
      CommaPiece(s, nest, i);
      rest := s[1..];
    } else {
      OtherPiece(s, nest, i);
      rest := LaterPiece(s[1..], Nested(nest, s[0]), i);
    }
  }

  /** No piece has a comma outside brackets. */
  lemma {:induction false} SplitPieces(s: string, nest: int, i: nat)
    requires i < |Split(s, nest)|
    ensures i == 0 ==> !TopComma(Split(s, nest)[i], nest)
    ensures i > 0 ==> !TopComma(Split(s, nest)[i], 0)
    decreases |s|
  {
    if i == 0 {
      FirstPiece(s, nest);
    } else {
      var rest := LaterPiece(s, nest, i);
      SplitPieces(rest, 0, i - 1);
    }
  }

  /** No dollar sign stands before an opening bracket. */
  predicate NoReference(s: string) { forall k :: 0 <= k < |s| - 1 && s[k] == '$' ==> s[k + 1] != '(' }

  /** Text without references is left alone, single dollar signs included. */
  lemma {:induction false} ExpandPlain(x: Setup, c: Counts, s: string, args: seq<string>)
    requires |c| == |x.vars| && NoReference(s)
    ensures Expand(x, c, s, args) == Some(s)
  {
    if s != [] {
      forall k | 0 <= k < |s[1..]| - 1 && s[1..][k] == '$' ensures s[1..][k + 1] != '(' { assert s[k + 1] == '$'; }
      ExpandPlain(x, c, s[1..], args);
      assert s == [s[0]] + s[1..];
      if |s| > 1 && s[0] == '$' { assert s[1] != '('; }
    }
  }

  /** All references of a text end in it. */
  predicate Whole(s: string) {
    if s == [] then true
    else if s[0] != '$' then Whole(s[1..])
    else if |s| == 1 then false
    else if s[1] != '(' then Whole(s[1..])
    else match CloseAt(s[2..], 0) case None => false case Some(q) => Whole(s[q + 3..])
  }

  lemma {:induction false} CloseEarly(s: string, t: string, nest: nat)
    requires CloseAt(s, nest).Some?
    ensures CloseAt(s + t, nest) == CloseAt(s, nest)
  {
    assert (s + t)[1..] == s[1..] + t && (s + t)[0] == s[0];
    if !(s[0] == ')' && nest == 0) { CloseEarly(s[1..], t, Nested(nest, s[0])); }
  }

  /** Expansion goes piece by piece. */
  lemma {:induction false} ExpandAppend(x: Setup, c: Counts, s: string, t: string, args: seq<string>)
    requires |c| == |x.vars| && Whole(s)
    ensures Expand(x, c, s + t, args) == Joined(Expand(x, c, s, args), Expand(x, c, t, args))
    decreases |s|
  {
    if s == [] {
      assert s + t == t;
      JoinedNone(Expand(x, c, t, args));
    } else {
      assert (s + t)[1..] == s[1..] + t;
      if s[0] != '$' || s[1] != '(' {
        ExpandAppend(x, c, s[1..], t, args);
        JoinedTwice(Some([s[0]]), Expand(x, c, s[1..], args), Expand(x, c, t, args));
      } else {
        var q := CloseAt(s[2..], 0).value;
        ExpandAppend(x, c, s[q + 3..], t, args);
        ExpandAppendReference(x, c, s, t, args);
        JoinedTwice(Clause(x, c, s[2..2 + q], args), Expand(x, c, s[q + 3..], args), Expand(x, c, t, args));
      }
    }
  }

  lemma ExpandAppendReference(x: Setup, c: Counts, s: string, t: string, args: seq<string>)
    requires |c| == |x.vars| && |s| > 1 && s[0] == '$' && s[1] == '(' && CloseAt(s[2..], 0).Some?
    ensures var q := CloseAt(s[2..], 0).value;
      Expand(x, c, s + t, args) == Joined(Clause(x, c, s[2..2 + q], args), Expand(x, c, s[q + 3..] + t, args))
  {
    CloseEarly(s[2..], t, 0);
    var q := CloseAt(s[2..], 0).value;
    assert (s + t)[2..] == s[2..] + t && (s + t)[2..2 + q] == s[2..2 + q] && (s + t)[q + 3..] == s[q + 3..] + t;
  }

  // ---------- the recursion guard ----------

  ghost predicate Fewer(d: Counts, c: Counts) { |d| == |c| && forall i :: 0 <= i < |c| ==> d[i] <= c[i] }

  /** The guard only refuses: what expands while more variables are under way expands to the same text otherwise. */
  lemma {:induction false} ExpandFewer(x: Setup, c: Counts, d: Counts, s: string, args: seq<string>)
    requires |c| == |x.vars| && Fewer(d, c) && Expand(x, c, s, args).Some?
    ensures Expand(x, d, s, args) == Expand(x, c, s, args)
    decreases Budget(c), |s|, 0, 0
  {
    if s == [] {
    } else if s[0] != '$' || |s| == 1 || s[1] != '(' {
      ExpandFewer(x, c, d, s[1..], args);
    } else {
      var q := CloseAt(s[2..], 0).value;
      ClauseFewer(x, c, d, s[2..2 + q], args);
      ExpandFewer(x, c, d, s[q + 3..], args);
    }
  }

  lemma {:induction false} ExpandAllFewer(x: Setup, c: Counts, d: Counts, ps: seq<string>, args: seq<string>, n: nat)
    requires |c| == |x.vars| && Fewer(d, c) && (forall p :: p in ps ==> |p| <= n) && ExpandAll(x, c, ps, args, n).Some?
    ensures ExpandAll(x, d, ps, args, n) == ExpandAll(x, c, ps, args, n)
    decreases Budget(c), n, 1, |ps|
  {
    if ps != [] {
      ExpandFewer(x, c, d, ps[0], args);
      ExpandAllFewer(x, c, d, ps[1..], args, n);
    }
  }

  lemma {:induction false} ClauseFewer(x: Setup, c: Counts, d: Counts, s: string, args: seq<string>)
    requires |c| == |x.vars| && Fewer(d, c) && Clause(x, c, s, args).Some?
    ensures Clause(x, d, s, args) == Clause(x, c, s, args)
    decreases Budget(c), |s|, 2, 0
  {
    if !(0 < x.number(s) <= |args|) {
      var ps := Split(s, 0);
      ExpandAllFewer(x, c, d, ps, args, |s|);
      var words := ExpandAll(x, c, ps, args, |s|).value;
      if Lookup(x.vars, words[0]).Some? {
        VariableFewer(x, c, d, Lookup(x.vars, words[0]).value, words[1..]);
      }
    }
  }

  lemma {:induction false} VariableFewer(x: Setup, c: Counts, d: Counts, i: nat, args: seq<string>)
    requires |c| == |x.vars| && Fewer(d, c) && i < |c| && Variable(x, c, i, args).Some?
    ensures Variable(x, d, i, args) == Variable(x, c, i, args)
    decreases Budget(c), 0, 0, 0
  {
    BudgetDrops(c, i);
    if x.vars[i].recursive {
      ExpandFewer(x, c[i := c[i] + 1], d[i := d[i] + 1], x.vars[i].value, args);
    }
  }

  /** A name that stands for itself. */
  predicate PlainName(x: Setup, s: string) {
    x.number(s) == 0 && '$' !in s && ',' !in s && '(' !in s && ')' !in s
  }

  lemma {:induction false} SplitPlain(s: string)
    requires ',' !in s && '(' !in s && ')' !in s
    ensures Split(s, 0) == [s]
  {
    if s != [] {
      SplitPlain(s[1..]);
      assert s == [s[0]] + s[1..];
    }
  }

  lemma {:induction false} ClosePlain(s: string)
    requires '(' !in s && ')' !in s
    ensures CloseAt(s + ")", 0) == Some(|s|)
  {
    if s == [] {
      assert s + ")" == ")";
    } else {
      ClosePlain(s[1..]);
      assert (s + ")")[1..] == s[1..] + ")" && (s + ")")[0] == s[0];
    }
  }

  lemma ClausePlain(x: Setup, c: Counts, name: string, i: nat)
    requires |c| == |x.vars| && PlainName(x, name) && Lookup(x.vars, name) == Some(i)
    ensures Clause(x, c, name, []) == Variable(x, c, i, [])
  {
    SplitPlain(name);
    ExpandPlain(x, c, name, []);
    var ps := [name];
    assert ps[1..] == [] && [name] + [] == ps;
    assert ExpandAll(x, c, ps, [], |name|) == Some(ps);
    assert Call(x, c, name, []) == Variable(x, c, i, []);
  }

  /** A plain reference is the variable. */
  lemma ReferencePlain(x: Setup, c: Counts, name: string, i: nat)
    requires |c| == |x.vars| && PlainName(x, name) && Lookup(x.vars, name) == Some(i)
    ensures Expand(x, c, "$(" + name + ")", []) == Variable(x, c, i, [])
  {
    var s := "$(" + name + ")";
    assert s[2..] == name + ")" && s[|name| + 3..] == [] && s[2..2 + |name|] == name;
    ClosePlain(name);
    ClausePlain(x, c, name, i);
    var v := Variable(x, c, i, []);
    if v.Some? { assert v.value + [] == v.value; }
    assert Expand(x, c, s, []) == Joined(Clause(x, c, name, []), Expand(x, c, [], []));
  }

  /** A variable that is under way cannot be entered again without arguments: a definition that refers to itself
      never expands, whatever stands around the reference. */
  lemma SelfReference(x: Setup, c: Counts, i: nat, before: string, after: string)
    requires |c| == |x.vars| && i < |c| && x.vars[i].recursive && PlainName(x, x.vars[i].name)
    requires Lookup(x.vars, x.vars[i].name) == Some(i) && Whole(before)
    requires x.vars[i].value == before + ("$(" + x.vars[i].name + ")" + after)
    ensures Expand(x, c, "$(" + x.vars[i].name + ")", []) == None
  {
    var name := x.vars[i].name;
    ReferencePlain(x, c, name, i);
    ReferenceWhole(name);
    if c[i] == 0 {
      var d := c[i := 1];
      ReferencePlain(x, d, name, i);
      assert Variable(x, d, i, []) == None;
      NeverAround(x, d, "$(" + name + ")", before, after);
      assert c[i] + 1 == 1;
    }
  }

  lemma NeverAround(x: Setup, c: Counts, s: string, before: string, after: string)
    requires |c| == |x.vars| && Whole(before) && Whole(s) && Expand(x, c, s, []) == None
    ensures Expand(x, c, before + (s + after), []) == None
  {
    ExpandAppend(x, c, before, s + after, []);
    ExpandAppend(x, c, s, after, []);
  }

  lemma ReferenceWhole(name: string)
    requires '(' !in name && ')' !in name
    ensures Whole("$(" + name + ")")
  {
    var s := "$(" + name + ")";
    ClosePlain(name);
    assert s[2..] == name + ")" && s[0] == '$' && s[1] == '(' && s[|name| + 3..] == [];
    assert CloseAt(s[2..], 0) == Some(|name|) && Whole(s[|name| + 3..]);
  }
}

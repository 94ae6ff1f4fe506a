/** What calls in macros expand to (eval_clause, variable_expand in scripts/config/preprocess.c): which variable,
    function or argument a reference stands for. */
module MacroCalls {
  import opened Expressions
  import opened Macros

  // ---------- calls ----------

  /** A text that can stand as one argument: its brackets match and no comma is outside them. */
  predicate Closed(s: string, nest: nat) {
    if s == [] then nest == 0
    else if nest == 0 && (s[0] == ')' || s[0] == ',') then false
    else Closed(s[1..], Nested(nest, s[0]))
  }

  lemma {:induction false} SplitWhole(a: string, nest: nat)
    requires Closed(a, nest)
    ensures Split(a, nest) == [a]
  {
    if a != [] {
      SplitWhole(a[1..], Nested(nest, a[0]));
      assert a == [a[0]] + a[1..];
    }
  }

  lemma SplitOn(u: string, nest: nat, head: string, more: seq<string>)
    requires u != [] && !(nest == 0 && u[0] == ',') && Split(u[1..], Nested(nest, u[0])) == [head] + more
    ensures Split(u, nest) == [[u[0]] + head] + more
  {
    var qs := Split(u[1..], Nested(nest, u[0]));
    assert qs[0] == head && qs[1..] == more;
  }

  lemma Front(a: string, t: string)
    requires a != []
    ensures (a + t)[0] == a[0] && (a + t)[1..] == a[1..] + t && [a[0]] + a[1..] == a
  {
  }

  lemma {:induction false} SplitArgument(a: string, t: string, nest: nat)
    requires Closed(a, nest) && t != [] && t[0] == ','
    ensures Split(a + t, nest) == [a] + Split(t[1..], 0)
  {
    var u := a + t;
    if a == [] {
      assert u == t;
    } else {
      SplitArgument(a[1..], t, Nested(nest, a[0]));
      Front(a, t);
      SplitOn(u, nest, a[1..], Split(t[1..], 0));
    }
  }

  lemma {:induction false} CloseBehind(a: string, t: string, nest: nat)
    requires Closed(a, nest)
    ensures CloseAt(a + t, nest) == match CloseAt(t, 0) case None => None case Some(q) => Some(|a| + q)
  {
    var u := a + t;
    if a == [] {
      assert u == t;
    } else {
      CloseBehind(a[1..], t, Nested(nest, a[0]));
      assert u[0] == a[0] && u[1..] == a[1..] + t;
    }
  }

  lemma JoinFront(ps: seq<string>, t: string)
    requires |ps| > 1
    ensures var rest := JoinWithCommas(ps[1..]);
      && JoinWithCommas(ps) == ps[0] + ("," + rest) && JoinWithCommas(ps) + t == ps[0] + ("," + (rest + t))
      && ("," + rest)[1..] == rest && ("," + (rest + t))[1..] == rest + t
    ensures [ps[0]] + ps[1..] == ps
  {
    var rest := JoinWithCommas(ps[1..]);
    Regroup(ps[0], ",", rest);
    Regroup(",", rest, t);
    Regroup(ps[0], "," + rest, t);
  }

  lemma {:induction false} SplitJoined(ps: seq<string>)
    requires ps != [] && forall p :: p in ps ==> Closed(p, 0)
    ensures Split(JoinWithCommas(ps), 0) == ps
  {
    if |ps| == 1 {
      SplitWhole(ps[0], 0);
      assert ps == [ps[0]];
    } else {
      var t := "," + JoinWithCommas(ps[1..]);
      SplitJoined(ps[1..]);
      JoinFront(ps, []);
      SplitArgument(ps[0], t, 0);
    }
  }

  lemma {:induction false} CloseJoined(ps: seq<string>)
    requires ps != [] && forall p :: p in ps ==> Closed(p, 0)
    ensures CloseAt(JoinWithCommas(ps) + ")", 0) == Some(|JoinWithCommas(ps)|)
  {
    if |ps| == 1 {
      CloseBehind(ps[0], ")", 0);
    } else {
      CloseJoined(ps[1..]);
      JoinFront(ps, ")");
      CloseBehind(ps[0], "," + (JoinWithCommas(ps[1..]) + ")"), 0);
    }
  }

  /** The pieces expand to these words. */
  ghost predicate Words(x: Setup, c: Counts, ps: seq<string>, ws: seq<string>, outer: seq<string>)
    requires |c| == |x.vars|
  {
    |ps| == |ws| && forall j :: 0 <= j < |ps| ==> Expand(x, c, ps[j], outer) == Some(ws[j])
  }

  lemma {:induction false} AllWords(x: Setup, c: Counts, ps: seq<string>, ws: seq<string>, outer: seq<string>, n: nat)
    requires |c| == |x.vars| && Words(x, c, ps, ws, outer) && forall p :: p in ps ==> |p| <= n
    ensures ExpandAll(x, c, ps, outer, n) == Some(ws)
  {
    if ps != [] {
      AllWords(x, c, ps[1..], ws[1..], outer, n);
      assert ws == [ws[0]] + ws[1..];
    } else {
      assert ws == [];
    }
  }

  /** The i-th variable is the first of that name. */
  ghost predicate Named(x: Setup, i: int, name: string) {
    0 <= i < |x.vars| && x.vars[i].name == name && forall j :: 0 <= j < i ==> x.vars[j].name != name
  }

  lemma {:induction false} LookupNamed(vars: seq<Definition>, name: string, i: nat)
    requires i < |vars| && vars[i].name == name && forall j :: 0 <= j < i ==> vars[j].name != name
    ensures Lookup(vars, name) == Some(i)
  {
    if i > 0 { LookupNamed(vars[1..], name, i - 1); }
  }

  /** What a name with arguments stands for: the first variable of that name goes before a built-in function, and that
      before the environment, which takes no arguments. A recursive variable is its value expanded with the arguments,
      any other its value as it stands. */
  ghost predicate Calls(x: Setup, c: Counts, name: string, args: seq<string>, r: Option<string>)
    requires |c| == |x.vars|
  {
    && (forall i :: Named(x, i, name) ==>
          r == if (args == [] && c[i] > 0) || c[i] > MAX_COUNT then None
               else if x.vars[i].recursive then Expand(x, c[i := c[i] + 1], x.vars[i].value, args)
               else Some(x.vars[i].value))
    && ((forall i :: 0 <= i < |x.vars| ==> x.vars[i].name != name) ==>
          r == match x.builtin(name, args)
               case Answer(text) => Some(text)
               case Failing => None
               case Missing => if args == [] && x.env(name).Some? then x.env(name) else Some(""))
  }

  lemma CallCalls(x: Setup, c: Counts, name: string, args: seq<string>)
    requires |c| == |x.vars|
    ensures Calls(x, c, name, args, Call(x, c, name, args))
  {
    forall i | Named(x, i, name) ensures Lookup(x.vars, name) == Some(i) { LookupNamed(x.vars, name, i); }
  }

  /** `$(p0,p1,..,pn)`, where the pieces expand to a name and arguments, calls it; with too many it is an error. */
  lemma CallExpands(x: Setup, c: Counts, ps: seq<string>, ws: seq<string>, outer: seq<string>)
    requires |c| == |x.vars| && ps != [] && Words(x, c, ps, ws, outer)
    requires forall p :: p in ps ==> Closed(p, 0)
    requires !(0 < x.number(JoinWithCommas(ps)) <= |outer|)
    ensures var r := Expand(x, c, "$(" + JoinWithCommas(ps) + ")", outer);
      if |ws| > MAX_ARGS + 1 then r == None else Calls(x, c, ws[0], ws[1..], r)
  {
    var s := JoinWithCommas(ps);
    SplitJoined(ps);
    CloseJoined(ps);
    ReferenceExpands(x, c, s, outer);
    assert forall p :: p in Split(s, 0) ==> |p| <= |s|;
    AllWords(x, c, ps, ws, outer, |s|);
    CallCalls(x, c, ws[0], ws[1..]);
  }

  lemma ReferenceExpands(x: Setup, c: Counts, s: string, args: seq<string>)
    requires |c| == |x.vars| && CloseAt(s + ")", 0) == Some(|s|)
    ensures Expand(x, c, "$(" + s + ")", args) == Clause(x, c, s, args) && Whole("$(" + s + ")")
  {
    var t := "$(" + s + ")";
    assert t[2..] == s + ")" && t[|s| + 3..] == [] && t[2..2 + |s|] == s;
    var v := Clause(x, c, s, args);
    if v.Some? { assert v.value + [] == v.value; }
    assert Expand(x, c, t, args) == Joined(v, Expand(x, c, [], args)) && Whole(t[|s| + 3..]);
  }

  // ---------- user functions ----------

  /** What a function body is made of: text, and references to arguments by number. */
  datatype Piece = Text(text: string) | Argument(number: string)

  function Body(ps: seq<Piece>): string {
    if ps == [] then [] else (if ps[0].Text? then ps[0].text else "$(" + ps[0].number + ")") + Body(ps[1..])
  }

  /** With the k-th argument in the place of each reference that reads as k. */
  function Filled(x: Setup, ps: seq<Piece>, args: seq<string>): string
    requires Fits(x, ps, args)
  {
    if ps == [] then []
    else (if ps[0].Text? then ps[0].text else args[x.number(ps[0].number) - 1]) + Filled(x, ps[1..], args)
  }

  predicate Fits(x: Setup, ps: seq<Piece>, args: seq<string>) {
    forall p :: p in ps ==>
      if p.Text? then '$' !in p.text else 0 < x.number(p.number) <= |args| && Closed(p.number, 0)
  }

  lemma {:induction false} BodyExpands(x: Setup, c: Counts, ps: seq<Piece>, args: seq<string>)
    requires |c| == |x.vars| && Fits(x, ps, args)
    ensures Expand(x, c, Body(ps), args) == Some(Filled(x, ps, args))
  {
    if ps != [] {
      var head := if ps[0].Text? then ps[0].text else "$(" + ps[0].number + ")";
      BodyExpands(x, c, ps[1..], args);
      if ps[0].Text? {
        ExpandPlain(x, c, head, args);
        PlainWhole(head);
      } else {
        CloseBehind(ps[0].number, ")", 0);
        ReferenceExpands(x, c, ps[0].number, args);
      }
      ExpandAppend(x, c, head, Body(ps[1..]), args);
    }
  }

  lemma {:induction false} PlainWhole(s: string)
    requires '$' !in s
    ensures Whole(s)
  {
    if s != [] { PlainWhole(s[1..]); }
  }

  /** A call of a user function is its body with the arguments filled in: the first variable of the name, defined
      recursively, not under way too often, and called with as many arguments as the body refers to. */
  lemma UserFunction(x: Setup, c: Counts, i: nat, ps: seq<string>, ws: seq<string>, body: seq<Piece>,
                     outer: seq<string>)
    requires |c| == |x.vars| && 1 < |ps| <= MAX_ARGS + 1 && Words(x, c, ps, ws, outer)
    requires forall p :: p in ps ==> Closed(p, 0)
    requires !(0 < x.number(JoinWithCommas(ps)) <= |outer|)
    requires Named(x, i, ws[0]) && x.vars[i].recursive && c[i] <= MAX_COUNT
    requires x.vars[i].value == Body(body) && Fits(x, body, ws[1..])
    ensures Expand(x, c, "$(" + JoinWithCommas(ps) + ")", outer) == Some(Filled(x, body, ws[1..]))
  {
    CallExpands(x, c, ps, ws, outer);
    BodyExpands(x, c[i := c[i] + 1], body, ws[1..]);
  }
}

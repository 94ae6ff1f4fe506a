/** The table of symbols (sym_lookup, sym_find in scripts/config/symbol.c): hash buckets whose chains grow at the head.
    Symbols are compared by identity elsewhere; here that is shown to be comparison by name and kind. */
module SymbolTable {
  import opened Expressions

  /** The flag a symbol is created with: none, SYMBOL_CONST or SYMBOL_CHOICE. */
  datatype Kind = Plain | Constant | ChoiceKind

  class Entry {
    const name: Option<string>
    const kind: Kind

    constructor (name: Option<string>, kind: Kind)
      ensures this.name == name && this.kind == kind
    {
      this.name, this.kind := name, kind;
    }
  }

  type Key = (string, Kind)

  const SIZE: nat := 9973

  /** y, m and n are not in the table. */
  predicate IsLetter(name: string) { name == "y" || name == "m" || name == "n" }

  function Slot(hash: string -> nat, name: string): nat { hash(name) % SIZE }

  /** `index` says which symbol each name has for each kind, and the chains hold just these and the nameless ones. */
  ghost predicate Indexed(chains: seq<seq<Entry>>, index: map<Key, Entry>, hash: string -> nat) {
    && |chains| == SIZE
    && (forall b, j {:trigger chains[b][j]} :: 0 <= b < SIZE && 0 <= j < |chains[b]| ==>
          Placed(chains[b][j], b, index, hash))
    && (forall k {:trigger KeyPlaced(chains, index, hash, k)} :: k in index ==> KeyPlaced(chains, index, hash, k))
  }

  ghost predicate Placed(e: Entry, b: nat, index: map<Key, Entry>, hash: string -> nat) {
    e.name.Some? ==>
      var k := (e.name.value, e.kind); b == Slot(hash, k.0) && k in index && index[k] == e
  }

  ghost predicate KeyPlaced(chains: seq<seq<Entry>>, index: map<Key, Entry>, hash: string -> nat, k: Key)
    requires |chains| == SIZE && k in index
  {
    !IsLetter(k.0) && index[k].name == Some(k.0) && index[k].kind == k.1 && index[k] in chains[Slot(hash, k.0)]
  }

  /** Different names or kinds have different symbols. */
  lemma IndexInjective(chains: seq<seq<Entry>>, index: map<Key, Entry>, hash: string -> nat, k: Key, l: Key)
    requires Indexed(chains, index, hash) && k in index && l in index
    ensures index[k] == index[l] <==> k == l
  {
    assert KeyPlaced(chains, index, hash, k) && KeyPlaced(chains, index, hash, l);
  }

  /** A new symbol at the head of its chain. */
  lemma InsertIndexed(chains: seq<seq<Entry>>, index: map<Key, Entry>, hash: string -> nat, e: Entry, b: nat)
    requires Indexed(chains, index, hash) && b < SIZE
    requires e.name.Some? ==>
      b == Slot(hash, e.name.value) && !IsLetter(e.name.value) && (e.name.value, e.kind) !in index
    ensures var index' := if e.name.Some? then index[(e.name.value, e.kind) := e] else index;
      Indexed(chains[b := [e] + chains[b]], index', hash)
  {
    var chains' := chains[b := [e] + chains[b]];
    var index' := if e.name.Some? then index[(e.name.value, e.kind) := e] else index;
    forall c, j | 0 <= c < SIZE && 0 <= j < |chains'[c]|
      ensures Placed(chains'[c][j], c, index', hash)
    {
      if c != b {
        assert Placed(chains[c][j], c, index, hash);
      } else if j > 0 {
        assert chains'[c][j] == chains[c][j - 1] && Placed(chains[c][j - 1], c, index, hash);
      }
    }
    forall k | k in index'
      ensures KeyPlaced(chains', index', hash, k)
    {
      if k in index {
        assert KeyPlaced(chains, index, hash, k);
        assert index'[k] == index[k];
      }
    }
  }

  /** Chains hold the later created symbols first. */
  ghost predicate Dated(chains: seq<seq<Entry>>, born: map<Entry, nat>, clock: nat) {
    && |chains| == SIZE
    && (forall b, j {:trigger chains[b][j]} :: 0 <= b < SIZE && 0 <= j < |chains[b]| ==>
          chains[b][j] in born && born[chains[b][j]] < clock)
    && (forall b, i, j {:trigger chains[b][i], chains[b][j]} :: 0 <= b < SIZE && 0 <= i < j < |chains[b]| ==>
          born[chains[b][j]] < born[chains[b][i]])
  }

  lemma InsertDated(chains: seq<seq<Entry>>, born: map<Entry, nat>, clock: nat, e: Entry, b: nat)
    requires Dated(chains, born, clock) && b < SIZE && e !in born
    ensures Dated(chains[b := [e] + chains[b]], born[e := clock], clock + 1)
  {
    var chains', born' := chains[b := [e] + chains[b]], born[e := clock];
    forall c, j | 0 <= c < SIZE && 0 <= j < |chains'[c]|
      ensures chains'[c][j] in born' && born'[chains'[c][j]] < clock + 1
    {
      if c == b && j > 0 { assert chains'[c][j] == chains[c][j - 1]; }
      if c != b { assert chains'[c][j] == chains[c][j]; }
    }
    forall c, i, j | 0 <= c < SIZE && 0 <= i < j < |chains'[c]|
      ensures born'[chains'[c][j]] < born'[chains'[c][i]]
    {
      if c == b {
        assert chains'[c][j] == chains[c][j - 1];
        if i > 0 { assert chains'[c][i] == chains[c][i - 1]; }
      } else {
        assert chains'[c][i] == chains[c][i] && chains'[c][j] == chains[c][j];
      }
    }
  }

  /** The first match in a chain was created after all others. */
  lemma {:induction false} FirstLatest(chains: seq<seq<Entry>>, born: map<Entry, nat>, clock: nat, b: nat, from: nat,
                                       name: string, kinds: set<Kind>, e: Entry)
    requires Dated(chains, born, clock) && b < SIZE && from <= |chains[b]|
    requires e in chains[b][from..] && e.name == Some(name) && e.kind in kinds
    ensures var r := FirstIn(chains[b][from..], name, kinds);
      r.Some? && r.value in born && e in born && (r.value == e || born[e] < born[r.value]) && born[e] < clock
    decreases |chains[b]| - from
  {
    var chain := chains[b][from..];
    var j :| 0 <= j < |chain| && chain[j] == e;
    assert chain[j] == chains[b][from + j] && chain[0] == chains[b][from];
    if !(chain[0].name == Some(name) && chain[0].kind in kinds) {
      assert chain[1..] == chains[b][from + 1..] && chain[1..][j - 1] == e;
      FirstLatest(chains, born, clock, b, from + 1, name, kinds, e);
    }
  }

  /** What a search finds: a symbol with the name that `wanted` accepts, if the index has one. */
  ghost predicate Found(r: Option<Entry>, index: map<Key, Entry>, name: string, kinds: set<Kind>) {
    && (r.Some? <==> exists k :: k in kinds && (name, k) in index)
    && (r.Some? ==> exists k :: k in kinds && (name, k) in index && r.value == index[(name, k)])
  }

  function FirstIn(chain: seq<Entry>, name: string, kinds: set<Kind>): Option<Entry> {
    if chain == [] then None
    else if chain[0].name == Some(name) && chain[0].kind in kinds then Some(chain[0])
    else FirstIn(chain[1..], name, kinds)
  }

  class Registry {
    const buckets: array<seq<Entry>>
    const hash: string -> nat
    const yes: Entry
    const mod: Entry
    const no: Entry
    ghost var index: map<Key, Entry>
    ghost var born: map<Entry, nat>
    ghost var clock: nat

    ghost predicate Valid()
      reads this, buckets
    {
      && buckets.Length == SIZE && Indexed(buckets[..], index, hash) && Dated(buckets[..], born, clock)
      && yes.name == Some("y") && mod.name == Some("m") && no.name == Some("n")
    }

    /** There is a symbol of that name and kind. */
    ghost predicate Has(name: string, kind: Kind)
      reads this
    {
      (name, kind) in index
    }

    /** When it was created. */
    ghost function Birth(name: string, kind: Kind): nat
      reads this
    {
      if Has(name, kind) && index[(name, kind)] in born then born[index[(name, kind)]] else 0
    }

    constructor (hash: string -> nat)
      ensures Valid() && index == map[] && fresh(buckets) && this.hash == hash
    {
      this.hash := hash;
      buckets := new seq<Entry>[SIZE](_ => []);
      yes := new Entry(Some("y"), Constant);
      mod := new Entry(Some("m"), Constant);
      no := new Entry(Some("n"), Constant);
      index, born, clock := map[], map[], 0;
    }

    function Letter(name: string): Entry
    {
      if name == "y" then yes else if name == "m" then mod else no
    }

    /** The walk down one chain. */
    method Search(name: string, kinds: set<Kind>) returns (r: Option<Entry>)
      requires Valid() && !IsLetter(name)
      ensures Found(r, index, name, kinds) && r == FirstIn(buckets[Slot(hash, name)], name, kinds)
    {
      var b, i := Slot(hash, name), 0;
      var chain := buckets[b];
      ghost var chains := buckets[..];
      assert chain[0..] == chain;
      while i < |chain|
        invariant i <= |chain| && FirstIn(chain, name, kinds) == FirstIn(chain[i..], name, kinds)
        invariant forall j :: 0 <= j < i ==> !(chain[j].name == Some(name) && chain[j].kind in kinds)
      {
        assert chain[i..][1..] == chain[i + 1..];
        var e := chain[i];
        if e.name == Some(name) && e.kind in kinds {
          assert Placed(chains[b][i], b, index, hash);
          return Some(e);
        }
        i := i + 1;
      }
      forall k | (name, k) in index
        ensures index[(name, k)] in chain && index[(name, k)].name == Some(name) && index[(name, k)].kind == k
      {
        assert KeyPlaced(chains, index, hash, (name, k));
      }
      r := None;
    }

    /** sym_lookup: the one symbol of that name and kind, created by the first call; nameless symbols are always new. */
    method Lookup(name: Option<string>, kind: Kind) returns (e: Entry)
      requires Valid()
      modifies this, buckets
      ensures Valid()
      ensures name.Some? && IsLetter(name.value) ==> e == Letter(name.value) && index == old(index)
      ensures name.Some? && !IsLetter(name.value) ==> (name.value, kind) in index && index[(name.value, kind)] == e
      ensures name.Some? && !IsLetter(name.value) ==>
        index == if (name.value, kind) in old(index) then old(index) else old(index)[(name.value, kind) := e]
      ensures name.Some? && !IsLetter(name.value) && (name.value, kind) !in old(index) ==> fresh(e)
      ensures name.None? ==> fresh(e) && index == old(index)
      ensures fresh(e) ==> e.name == name && e.kind == kind
      ensures if fresh(e) then clock == old(clock) + 1 && born == old(born)[e := old(clock)]
              else clock == old(clock) && born == old(born)
    {
      var b := 0;
      if name.Some? {
        if IsLetter(name.value) { return Letter(name.value); }
        b := Slot(hash, name.value);
        var r := Search(name.value, {kind});
        if r.Some? { return r.value; }
      }
      e := new Entry(name, kind);
      InsertIndexed(buckets[..], index, hash, e, b);
      InsertDated(buckets[..], born, clock, e, b);
      born, clock := born[e := clock], clock + 1;
      buckets[b] := [e] + buckets[b];
      if name.Some? { index := index[(name.value, kind) := e]; }
      assert buckets[..] == old(buckets[..])[b := [e] + old(buckets[..])[b]];
    }

    /** sym_find: finds plain symbols and choices. A plain symbol is found exactly if no choice of its name was created
        after it. */
    method Find(name: string) returns (r: Option<Entry>)
      requires Valid()
      ensures IsLetter(name) ==> r == Some(Letter(name))
      ensures !IsLetter(name) ==> Found(r, index, name, {Plain, ChoiceKind})
      ensures !IsLetter(name) && Has(name, Plain) ==>
        (r == Some(index[(name, Plain)]) <==>
          !(Has(name, ChoiceKind) && Birth(name, Plain) < Birth(name, ChoiceKind)))
    {
      if IsLetter(name) { return Some(Letter(name)); }
      r := Search(name, {Plain, ChoiceKind});
      Latest(name, {Plain, ChoiceKind}, Plain);
      Latest(name, {Plain, ChoiceKind}, ChoiceKind);
      if Has(name, Plain) && Has(name, ChoiceKind) {
        IndexInjective(buckets[..], index, hash, (name, Plain), (name, ChoiceKind));
      }
    }

    lemma Latest(name: string, kinds: set<Kind>, kind: Kind)
      requires Valid() && kind in kinds
      ensures Has(name, kind) ==>
        var r, e := FirstIn(buckets[Slot(hash, name)], name, kinds), index[(name, kind)];
        r.Some? && r.value in born && e in born && (r.value == e || born[e] < born[r.value]) && born[e] < clock
    {
      if Has(name, kind) {
        var b := Slot(hash, name);
        assert KeyPlaced(buckets[..], index, hash, (name, kind));
        assert buckets[..][b][0..] == buckets[b];
        FirstLatest(buckets[..], born, clock, b, 0, name, kinds, index[(name, kind)]);
      }
    }
  }

  type Request = (Option<string>, Kind)

  /** Requests `a` and `b`, the same one if `same`, ask for one symbol: y, m and n are one each whatever the kind, and
      nameless symbols are all different. */
  predicate Alike(a: Request, b: Request, same: bool) {
    if a.0.None? || b.0.None? then same
    else if IsLetter(a.0.value) || IsLetter(b.0.value) then a.0 == b.0
    else a == b
  }

  ghost predicate Answers(t: Registry, k: Request, e: Entry)
    reads t
  {
    e.name == k.0 && (k.0.Some? ==>
      if IsLetter(k.0.value) then e == t.Letter(k.0.value)
      else (k.0.value, k.1) in t.index && t.index[(k.0.value, k.1)] == e)
  }

  /** Asking again gives the same symbol, whatever was asked in between, and different names or kinds give different
      ones. */
  method LookupAll(t: Registry, asked: seq<Request>) returns (es: seq<Entry>)
    requires t.Valid()
    modifies t, t.buckets
    ensures |es| == |asked|
    ensures forall i, j :: 0 <= i < |asked| && 0 <= j < |asked| ==>
      (es[i] == es[j] <==> Alike(asked[i], asked[j], i == j))
  {
    es := [];
    while |es| < |asked|
      invariant |es| <= |asked| && t.Valid()
      invariant forall i :: 0 <= i < |es| ==> Answers(t, asked[i], es[i])
      invariant forall i, j :: 0 <= i < j < |es| && asked[j].0.None? ==> es[i] != es[j]
    {
      var e := t.Lookup(asked[|es|].0, asked[|es|].1);
      ghost var k := asked[|es|];
      if k.0.Some? && !IsLetter(k.0.value) { assert KeyPlaced(t.buckets[..], t.index, t.hash, (k.0.value, k.1)); }
      assert Answers(t, k, e);
      es := es + [e];
    }
    forall i, j | 0 <= i < |asked| && 0 <= j < |asked|
      ensures es[i] == es[j] <==> Alike(asked[i], asked[j], i == j)
    {
      AnswersApart(t, asked[i], es[i], asked[j], es[j]);
    }
  }

  lemma AnswersApart(t: Registry, a: Request, d: Entry, b: Request, e: Entry)
    requires t.Valid() && Answers(t, a, d) && Answers(t, b, e)
    ensures a.0.Some? && b.0.Some? ==> (d == e <==> Alike(a, b, false))
    ensures a.0.None? != b.0.None? ==> d != e
  {
    if a.0.Some? && b.0.Some? && !IsLetter(a.0.value) && !IsLetter(b.0.value) {
      IndexInjective(t.buckets[..], t.index, t.hash, (a.0.value, a.1), (b.0.value, b.1));
    }
  }

  /** A choice created after a symbol of its name hides it from sym_find. */
  method HiddenByChoice(t: Registry, name: string) returns (plain: Entry, choice: Entry, found: Option<Entry>)
    requires t.Valid() && !IsLetter(name) && !t.Has(name, ChoiceKind)
    modifies t, t.buckets
    ensures t.Valid() && t.Has(name, Plain) && t.index[(name, Plain)] == plain
    ensures choice != plain && found == Some(choice)
  {
    plain := t.Lookup(Some(name), Plain);
    t.Latest(name, {Plain}, Plain);
    choice := t.Lookup(Some(name), ChoiceKind);
    IndexInjective(t.buckets[..], t.index, t.hash, (name, Plain), (name, ChoiceKind));
    assert t.Birth(name, Plain) < t.Birth(name, ChoiceKind);
    found := t.Find(name);
  }
}

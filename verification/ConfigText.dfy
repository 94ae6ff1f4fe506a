/** The .config text: escaping of string values (sym_escape_string_value in scripts/config/symbol.c) against reading
    them in place (conf_set_sym_val in confdata.c), and whole lines written and read back. */
module ConfigText {
  import opened Expressions

  const NUL: char := '\0'

  /** What a C string holds before its terminator. */
  predicate Text(s: string) { NUL !in s }

  // ---------- escaping ----------

  predicate Special(c: char) { c == '"' || c == '\\' }

  /** The escaped characters. */
  function Body(s: string): string {
    if s == [] then [] else (if Special(s[0]) then ['\\', s[0]] else [s[0]]) + Body(s[1..])
  }

  function Escaped(s: string): string { ['"'] + Body(s) + ['"'] }

  /** strcspn: where the next quote or backslash is. */
  function Span(s: string, p: nat): (q: nat)
    requires p <= |s|
    ensures p <= q <= |s| && (q < |s| ==> Special(s[q])) && forall k :: p <= k < q ==> !Special(s[k])
    decreases |s| - p
  {
    if p == |s| || Special(s[p]) then p else Span(s, p + 1)
  }

  lemma {:induction false} BodyAppend(s: string, t: string)
    ensures Body(s + t) == Body(s) + Body(t)
  {
    if s == [] {
      assert s + t == t;
    } else {
      BodyAppend(s[1..], t);
      assert (s + t)[1..] == s[1..] + t && (s + t)[0] == s[0];
    }
  }

  lemma {:induction false} BodyPlain(s: string)
    requires forall k :: 0 <= k < |s| ==> !Special(s[k])
    ensures Body(s) == s
  {
    if s != [] { BodyPlain(s[1..]); }
  }

  /** The text up to the next special character, and that one escaped. */
  lemma BodyStep(s: string, p: nat)
    requires p <= |s|
    ensures var q := Span(s, p);
      Body(s[..q]) == Body(s[..p]) + s[p..q] &&
      (q < |s| ==> Body(s[..q + 1]) == Body(s[..p]) + s[p..q] + ['\\', s[q]])
  {
    var q := Span(s, p);
    assert s[..q] == s[..p] + s[p..q];
    BodyAppend(s[..p], s[p..q]);
    BodyPlain(s[p..q]);
    if q < |s| {
      assert s[..q + 1] == s[..q] + [s[q]];
      BodyAppend(s[..q], [s[q]]);
    }
  }

  /** The first pass of sym_escape_string_value: the size of the buffer. */
  method EscapedSize(s: string) returns (reslen: nat)
    ensures reslen == |Escaped(s)| + 1
  {
    reslen := |s| + 2 + 1;
    var p := 0;
    while true
      invariant p <= |s| && reslen + p == |s| + |Body(s[..p])| + 3
      decreases |s| - p
    {
      BodyStep(s, p);
      p := Span(s, p);
      if p == |s| { break; }
      reslen := reslen + 1;
      p := p + 1;
    }
    assert s[..p] == s;
  }

  /** sym_escape_string_value; the buffer is exactly as large as the text with its terminator. */
  method Escape(s: string) returns (res: string, reslen: nat)
    ensures res == Escaped(s) && reslen == |res| + 1
  {
    reslen := EscapedSize(s);
    var p := 0;
    res := "\"";
    while true
      invariant p <= |s| && res == ['"'] + Body(s[..p])
      decreases |s| - p
    {
      BodyStep(s, p);
      var l := Span(s, p);
      res := res + s[p..l];
      p := l;
      if p == |s| { break; }
      res := res + ['\\'] + [s[p]];
      p := p + 1;
    }
    assert s[..p] == s;
    res := res + "\"";
  }

  /** A backslash stands before each quote and backslash of the text, and nowhere else. */
  lemma {:induction false} BodyExact(s: string, t: string)
    requires forall k :: 0 <= k < |s| ==> s[k] != '"' && s[k] != '\\'
    ensures Body(s + t) == s + Body(t)
    ensures Body(['"'] + t) == ['\\', '"'] + Body(t) && Body(['\\'] + t) == ['\\', '\\'] + Body(t)
  {
    BodyAppend(s, t);
    BodyPlain(s);
    BodyAppend(['"'], t);
    BodyAppend(['\\'], t);
    assert Body(['"']) == ['\\', '"'] && Body(['\\']) == ['\\', '\\'];
  }

  // ---------- reading a string value in place ----------

  /** The string value in a text that starts behind the opening quote: up to the closing quote, each backslash
      giving way to the character behind it; None when there is no closing quote. */
  function Unquoted(s: string): Option<string> {
    if s == [] then None
    else if s[0] == '"' then Some([])
    else if s[0] == '\\' then (if |s| == 1 then None else Before(s[1], Unquoted(s[2..])))
    else Before(s[0], Unquoted(s[1..]))
  }

  function Before(c: char, s: Option<string>): Option<string> { if s.Some? then Some([c] + s.value) else None }

  /** Reading undoes escaping, whatever follows the closing quote. */
  lemma {:induction false} UnquotedBody(s: string, rest: string)
    ensures Unquoted(Body(s) + ['"'] + rest) == Some(s)
  {
    var t := Body(s) + ['"'] + rest;
    if s != [] {
      UnquotedBody(s[1..], rest);
      var more := Body(s[1..]) + ['"'] + rest;
      assert s == [s[0]] + s[1..];
      if Special(s[0]) {
        assert t == ['\\', s[0]] + more;
      } else {
        assert t == [s[0]] + more;
      }
    }
  }

  /** A backslash gives way to whatever is behind it; without anything behind it there is no closing quote. */
  lemma UnquotedEscape(c: char, t: string, more: string)
    requires Unquoted(t) == Some(more)
    ensures Unquoted(['\\', c] + t) == Some([c] + more)
    ensures c != '"' && c != '\\' ==> Unquoted([c] + t) == Some([c] + more)
    ensures Unquoted(['"'] + t) == Some([]) && Unquoted(['\\']) == None
  {
    assert (['\\', c] + t)[2..] == t && ([c] + t)[1..] == t;
  }

  /** Without the closing quote there is no value. */
  lemma {:induction false} UnquotedOpen(s: string)
    ensures Unquoted(Body(s)) == None
  {
    if s != [] {
      UnquotedOpen(s[1..]);
      if Special(s[0]) {
        assert Body(s)[2..] == Body(s[1..]);
      } else {
        assert Body(s)[1..] == Body(s[1..]);
      }
    }
  }

  /** The C string at position p. */
  function CString(b: seq<char>, p: nat): string
    requires p <= |b|
    decreases |b| - p
  {
    if p == |b| || b[p] == NUL then [] else [b[p]] + CString(b, p + 1)
  }

  lemma {:induction false} CStringUpTo(b: seq<char>, p: nat, end: nat)
    requires p <= end < |b| && b[end] == NUL && Text(b[p..end])
    ensures CString(b, p) == b[p..end]
    decreases end - p
  {
    if p < end {
      assert b[p] == b[p..end][0] && b[p + 1..end] == b[p..end][1..];
      CStringUpTo(b, p + 1, end);
    }
  }

  /** strpbrk: the next quote or backslash before the end of the string at p. */
  method Find(buf: array<char>, p: nat, ghost end: nat) returns (q: Option<nat>)
    requires p <= end < buf.Length && buf[end] == NUL && Text(buf[p..end])
    ensures q.Some? ==> p <= q.value < end && Special(buf[q.value]) && forall k :: p <= k < q.value ==> !Special(buf[k])
    ensures q.None? ==> forall k :: p <= k < end ==> !Special(buf[k])
  {
    var i := p;
    while buf[i] != NUL
      invariant p <= i <= end && forall k :: p <= k < i ==> !Special(buf[k])
      invariant i < end ==> buf[i] in buf[p..end]
      decreases end - i
    {
      if Special(buf[i]) { return Some(i); }
      i := i + 1;
    }
    q := None;
  }

  function Prefixed(s: string, o: Option<string>): Option<string> { if o.Some? then Some(s + o.value) else None }

  lemma {:induction false} UnquotedPlain(s: string, t: string)
    requires forall k :: 0 <= k < |s| ==> !Special(s[k])
    ensures Unquoted(s + t) == Prefixed(s, Unquoted(t))
  {
    if s == [] {
      assert s + t == t && (Unquoted(t).Some? ==> s + Unquoted(t).value == Unquoted(t).value);
    } else {
      UnquotedPlain(s[1..], t);
      assert (s + t)[1..] == s[1..] + t;
      if Unquoted(t).Some? { assert [s[0]] + (s[1..] + Unquoted(t).value) == s + Unquoted(t).value; }
    }
  }

  /** The text from p to p2 is the value so far, the text from p2 to the terminator at `stop` is still quoted. */
  ghost predicate Partway(b: seq<char>, p: nat, p2: nat, stop: nat, goal: Option<string>) {
    && p <= p2 <= stop < |b| && b[stop] == NUL && Text(b[p2..stop])
    && goal == Prefixed(b[p..p2], Unquoted(b[p2..stop])) && (goal.Some? ==> Text(b[p..p2]))
  }

  lemma PartwayFirst(b: seq<char>, p: nat, stop: nat)
    requires p <= stop < |b| && b[stop] == NUL && Text(b[p..stop])
    ensures Partway(b, p, p, stop, Unquoted(b[p..stop]))
  {
    var rest := Unquoted(b[p..stop]);
    if rest.Some? { assert b[p..p] + rest.value == rest.value; }
  }

  /** Ordinary characters stay where they are. */
  lemma PartwayPlain(b: seq<char>, p: nat, p2: nat, q: nat, stop: nat, goal: Option<string>)
    requires Partway(b, p, p2, stop, goal) && p2 <= q <= stop && forall k :: p2 <= k < q ==> !Special(b[k])
    ensures Partway(b, p, q, stop, goal)
  {
    var rest := Unquoted(b[q..stop]);
    assert b[p2..stop] == b[p2..q] + b[q..stop] && b[p..q] == b[p..p2] + b[p2..q];
    UnquotedPlain(b[p2..q], b[q..stop]);
    if rest.Some? { assert b[p..p2] + (b[p2..q] + rest.value) == b[p..q] + rest.value; }
  }

  /** The character behind a backslash takes its place. */
  lemma PartwayEscape(b: seq<char>, b': seq<char>, p: nat, p2: nat, stop: nat, goal: Option<string>)
    requires Partway(b, p, p2, stop, goal) && p2 < stop && b[p2] == '\\' && |b'| == |b|
    requires b'[..p2] == b[..p2] && b'[p2..stop] == b[p2 + 1..stop + 1] && b'[stop] == NUL
    ensures Partway(b', p, p2 + 1, if p2 + 1 < stop then stop - 1 else stop, goal)
  {
    var s := b[p2..stop];
    assert b[p..p2] == b'[p..p2];
    if p2 + 1 < stop {
      forall k | p2 <= k < stop
        ensures b'[k] == b[k + 1]
      {
        assert b'[k] == b'[p2..stop][k - p2] == b[p2 + 1..stop + 1][k - p2];
      }
      assert b'[p2] == s[1] && b'[stop - 1] == NUL && b'[p2 + 1..stop - 1] == s[2..];
      assert b'[p..p2 + 1] == b[p..p2] + [s[1]];
      var rest := Unquoted(s[2..]);
      if rest.Some? { assert b[p..p2] + ([s[1]] + rest.value) == b'[p..p2 + 1] + rest.value; }
    }
  }

  /** The closing quote ends the value. */
  lemma PartwayQuote(b: seq<char>, p: nat, p2: nat, stop: nat, goal: Option<string>)
    requires Partway(b, p, p2, stop, goal) && p2 < stop && b[p2] == '"'
    ensures goal == Some(b[p..p2])
  {
    assert b[p2..stop][0] == '"' && b[p..p2] + [] == b[p..p2];
  }

  method Strlen(buf: array<char>, p: nat, ghost end: nat) returns (n: nat)
    requires p <= end < buf.Length && buf[end] == NUL && Text(buf[p..end])
    ensures n == end - p
  {
    n := 0;
    while buf[p + n] != NUL
      invariant p + n <= end && (p + n < end ==> buf[p + n] in buf[p..end])
      decreases end - p - n
    {
      n := n + 1;
    }
  }

  /** memmove down by one place. */
  method MoveDown(buf: array<char>, p: nat, n: nat)
    requires p + n < buf.Length
    modifies buf
    ensures buf[..p] == old(buf[..p]) && buf[p..p + n] == old(buf[p + 1..p + n + 1]) &&
        buf[p + n..] == old(buf[p + n..])
  {
    forall k | p <= k < p + n { buf[k] := buf[k + 1]; }
  }

  /** The loop of conf_set_sym_val for strings: cuts the text at the closing quote and moves the rest of the text over
      each backslash. */
  method UnquoteInPlace(buf: array<char>, p: nat, ghost end: nat) returns (ok: bool)
    requires p <= end < buf.Length && buf[end] == NUL && Text(buf[p..end])
    modifies buf
    ensures ok <==> Unquoted(old(buf[p..end])).Some?
    ensures ok ==> Some(CString(buf[..], p)) == Unquoted(old(buf[p..end]))
  {
    var p2: nat := p;
    ghost var stop: nat, goal := end, Unquoted(buf[p..end]);
    PartwayFirst(buf[..], p, end);
    while true
      invariant Partway(buf[..], p, p2, stop, goal)
      decreases stop - p2
    {
      var q := Find(buf, p2, stop);
      PartwayPlain(buf[..], p, p2, if q.Some? then q.value else stop, stop, goal);
      if q.None? {
        assert buf[..][stop..stop] == [];
        return false;
      }
      p2 := q.value;
      ghost var b := buf[..];
      if buf[p2] == '"' {
        PartwayQuote(b, p, p2, stop, goal);
        buf[p2] := NUL;
        assert buf[..][p..p2] == b[p..p2];
        CStringUpTo(buf[..], p, p2);
        return true;
      }
      var n := Strlen(buf, p2, stop);
      MoveDown(buf, p2, n);
      assert buf[stop] == buf[stop..][0];
      PartwayEscape(b, buf[..], p, p2, stop, goal);
      stop := if p2 + 1 < stop then stop - 1 else stop;
      p2 := p2 + 1;
    }
  }

  // ---------- lines ----------

  const PREFIX: string := "CONFIG_"

  const UNSET: string := " is not set"

  /** kconfig_print_symbol. */
  function SymbolLine(name: string, t: SymbolType, value: string): string {
    if t in {Boolean, TristateType} && |value| > 0 && value[0] == 'n' then "# " + PREFIX + name + UNSET + "\n"
    else PREFIX + name + "=" + value + "\n"
  }

  /** conf_write_symbol. */
  function Written(name: string, t: SymbolType, value: string): string {
    if t == Unknown then "" else SymbolLine(name, t, if t == StringType then Escaped(value) else value)
  }

  datatype Setting = Tri(t: Tristate) | Str(s: string)

  predicate Digit(c: char) { '0' <= c <= '9' }

  predicate HexDigit(c: char) { Digit(c) || 'a' <= c <= 'f' || 'A' <= c <= 'F' }

  predicate IntDigits(d: string) {
    d != [] && Digit(d[0]) && (d[0] == '0' ==> |d| == 1) && forall k :: 0 <= k < |d| ==> Digit(d[k])
  }

  predicate HexDigits(d: string) { d != [] && forall k :: 0 <= k < |d| ==> HexDigit(d[k]) }

  /** sym_string_valid. */
  predicate StringValid(t: SymbolType, s: string) {
    match t
    case StringType => true
    case IntType => IntDigits(if s != [] && s[0] == '-' then s[1..] else s)
    case HexType => HexDigits(if |s| >= 2 && s[0] == '0' && (s[1] == 'x' || s[1] == 'X') then s[2..] else s)
    case Unknown => false
    case _ => s != [] && s[0] in {'y', 'Y', 'm', 'M', 'n', 'N'}
  }

  predicate StartsWith(s: string, c: char) { s != [] && s[0] == c }

  /** conf_set_sym_val: the user value set, if any. */
  function SetValue(t: SymbolType, p: string): Option<Setting> {
    match t
    case Unknown => None
    case StringType =>
      if StartsWith(p, '"') && Unquoted(p[1..]).Some? then Some(Str(Unquoted(p[1..]).value)) else None
    case IntType => if StringValid(t, p) then Some(Str(p)) else None
    case HexType => if StringValid(t, p) then Some(Str(p)) else None
    case _ =>
      if t == TristateType && StartsWith(p, 'm') then Some(Tri(MOD))
      else if StartsWith(p, 'y') then Some(Tri(YES))
      else if StartsWith(p, 'n') then Some(Tri(NO))
      else None
  }

  /** strchr: the text before the first c and the text behind it. */
  function SplitAt(s: string, c: char): Option<(string, string)> {
    if s == [] then None
    else if s[0] == c then Some(([], s[1..]))
    else match SplitAt(s[1..], c) case None => None case Some((a, b)) => Some(([s[0]] + a, b))
  }

  /** compat_getline: the first line, with its newline. */
  function FirstLine(text: string): string {
    match SplitAt(text, '\n') case None => text case Some((a, _)) => a + "\n"
  }

  /** The value without the end of the line, a carriage return included. */
  function Chomp(p: string): string {
    match SplitAt(p, '\n')
    case None => p
    case Some((a, _)) => if a != [] && a[|a| - 1] == '\r' then a[..|a| - 1] else a
  }

  predicate HasPrefix(s: string, p: string) { |p| <= |s| && s[..|p|] == p }

  /** One line of conf_read_simple: the name and the user value it sets; `find` knows the declared symbols. */
  function ReadLine(line: string, find: string -> Option<SymbolType>): Option<(string, Setting)> {
    if StartsWith(line, '#') then
      if |line| < 2 || !HasPrefix(line[2..], PREFIX) then None
      else match SplitAt(line[2 + |PREFIX|..], ' ')
        case None => None
        case Some((name, p)) =>
          if !HasPrefix(p, "is not set") then None
          else if find(name) in {Some(Boolean), Some(TristateType)} then Some((name, Tri(NO))) else None
    else if HasPrefix(line, PREFIX) then
      match SplitAt(line[|PREFIX|..], '=')
      case None => None
      case Some((name, p)) =>
        match find(name)
        case None => None
        case Some(t) => match SetValue(t, Chomp(p)) case None => None case Some(v) => Some((name, v))
    else None
  }

  /** The lines as they are written. */
  lemma WrittenExact(name: string, t: SymbolType, value: string)
    ensures t == Unknown ==> Written(name, t, value) == ""
    ensures t in {IntType, HexType} ==> Written(name, t, value) == "CONFIG_" + name + "=" + value + "\n"
    ensures t == StringType ==> Written(name, t, value) == "CONFIG_" + name + "=" + (['"'] + Body(value) + ['"']) + "\n"
    ensures t in {Boolean, TristateType} ==> Written(name, t, "n") == "# CONFIG_" + name + " is not set\n"
    ensures t in {Boolean, TristateType} ==> Written(name, t, "y") == "CONFIG_" + name + "=y\n"
    ensures t in {Boolean, TristateType} ==> Written(name, t, "m") == "CONFIG_" + name + "=m\n"
  {
    assert "# " + "CONFIG_" + name + " is not set" + "\n" == "# CONFIG_" + name + " is not set\n";
    assert "CONFIG_" + name + "=" + "y" + "\n" == "CONFIG_" + name + "=y\n";
    assert "CONFIG_" + name + "=" + "m" + "\n" == "CONFIG_" + name + "=m\n";
  }

  /** 0, or digits that do not begin with 0. */
  predicate Decimal(d: string) {
    d == "0" || (d != [] && '1' <= d[0] <= '9' && forall k :: 0 <= k < |d| ==> '0' <= d[k] <= '9')
  }

  predicate Hexadecimal(d: string) {
    d != [] && forall k :: 0 <= k < |d| ==> '0' <= d[k] <= '9' || 'a' <= d[k] <= 'f' || 'A' <= d[k] <= 'F'
  }

  /** The user value that a text sets, by the type of the symbol: the first letter decides for booleans and tristates,
      m for tristates only; numbers must be valid as a whole, decimal with a minus sign or none, hexadecimal with 0x or
      without; a string must be quoted and closed. */
  ghost predicate Sets(t: SymbolType, p: string, r: Option<Setting>) {
    match t
    case Unknown => r == None
    case StringType =>
      if p != [] && p[0] == '"' && Unquoted(p[1..]).Some? then r == Some(Str(Unquoted(p[1..]).value)) else r == None
    case IntType => r == if Decimal(p) || (StartsWith(p, '-') && Decimal(p[1..])) then Some(Str(p)) else None
    case HexType =>
      var bare := |p| >= 2 && p[0] == '0' && (p[1] == 'x' || p[1] == 'X');
      r == if Hexadecimal(if bare then p[2..] else p) then Some(Str(p)) else None
    case _ =>
      if p == [] then r == None
      else if p[0] == 'y' then r == Some(Tri(YES))
      else if p[0] == 'n' then r == Some(Tri(NO))
      else if p[0] == 'm' && t == TristateType then r == Some(Tri(MOD))
      else r == None
  }

  lemma SetsValue(t: SymbolType, p: string)
    ensures Sets(t, p, SetValue(t, p))
  {
    DigitsAgree(p);
    if p != [] { DigitsAgree(p[1..]); }
    if |p| >= 2 { DigitsAgree(p[2..]); }
    assert StartsWith(p, '-') ==> !Decimal(p);
  }

  lemma DigitsAgree(d: string)
    ensures Decimal(d) <==> IntDigits(d)
    ensures Hexadecimal(d) <==> HexDigits(d)
  {
    if d == "0" { assert IntDigits(d); }
    if IntDigits(d) {
      forall k | 0 <= k < |d| ensures '0' <= d[k] <= '9' { assert Digit(d[k]); }
      if d[0] == '0' { assert d == "0"; }
    }
    if HexDigits(d) {
      forall k | 0 <= k < |d|
        ensures '0' <= d[k] <= '9' || 'a' <= d[k] <= 'f' || 'A' <= d[k] <= 'F'
      {
        assert HexDigit(d[k]);
      }
    }
  }

  // ---------- lines read back ----------

  lemma {:induction false} SplitAtFirst(a: string, c: char, b: string)
    requires c !in a
    ensures SplitAt(a + [c] + b, c) == Some((a, b))
  {
    var s := a + [c] + b;
    if a == [] {
      assert s[0] == c && s[1..] == b;
    } else {
      SplitAtFirst(a[1..], c, b);
      assert s[1..] == a[1..] + [c] + b && s[0] == a[0];
      assert a == [a[0]] + a[1..];
    }
  }

  /** Names of symbols: no blank, no equals sign, no newline. */
  predicate NameText(name: string) { ' ' !in name && '=' !in name && '\n' !in name }

  /** A line that assigns reads back as its value. */
  lemma ReadsAssignment(name: string, value: string, rest: string, find: string -> Option<SymbolType>)
    requires NameText(name) && '\n' !in value && find(name).Some?
    ensures var line := FirstLine(PREFIX + name + "=" + value + "\n" + rest);
      var p := if value != [] && value[|value| - 1] == '\r' then value[..|value| - 1] else value;
      ReadLine(line, find) ==
        match SetValue(find(name).value, p) case None => None case Some(v) => Some((name, v))
  {
    LineParts(name, value, rest);
    SplitAtFirst(value, '\n', []);
    assert value + ['\n'] + [] == value + "\n";
  }

  lemma LineParts(name: string, value: string, rest: string)
    requires NameText(name) && '\n' !in value
    ensures var line := FirstLine(PREFIX + name + "=" + value + "\n" + rest);
      && HasPrefix(line, PREFIX) && !StartsWith(line, '#')
      && SplitAt(line[|PREFIX|..], '=') == Some((name, value + "\n"))
  {
    var a := PREFIX + name + "=" + value;
    SplitAtFirst(a, '\n', rest);
    assert a + ['\n'] + rest == PREFIX + name + "=" + value + "\n" + rest;
    var line := a + "\n";
    assert line[..|PREFIX|] == PREFIX && line[0] == 'C';
    assert line[|PREFIX|..] == name + ['='] + (value + "\n");
    SplitAtFirst(name, '=', value + "\n");
  }

  /** What a line with an assignment sets, by the type of the symbol; an unknown name sets nothing. */
  lemma ReadsByType(name: string, value: string, rest: string, find: string -> Option<SymbolType>)
    requires NameText(name) && '\n' !in value && (value != [] ==> value[|value| - 1] != '\r')
    ensures var r := ReadLine(FirstLine("CONFIG_" + name + "=" + value + "\n" + rest), find);
      match find(name)
      case None => r == None
      case Some(t) =>
        exists v :: Sets(t, value, v) && r == (if v.Some? then Some((name, v.value)) else None)
  {
    if find(name).Some? {
      ReadsAssignment(name, value, rest, find);
      SetsValue(find(name).value, value);
    } else {
      LineParts(name, value, rest);
    }
  }

  /** The comment for an unset symbol reads back as n. */
  lemma ReadsUnset(name: string, rest: string, find: string -> Option<SymbolType>)
    requires NameText(name) && find(name) in {Some(Boolean), Some(TristateType)}
    ensures ReadLine(FirstLine("# " + PREFIX + name + UNSET + "\n" + rest), find) == Some((name, Tri(NO)))
  {
    var a := "# " + PREFIX + name + UNSET;
    SplitAtFirst(a, '\n', rest);
    assert a + ['\n'] + rest == "# " + PREFIX + name + UNSET + "\n" + rest;
    var line := a + "\n";
    assert line[2..][..|PREFIX|] == PREFIX;
    assert line[2 + |PREFIX|..] == name + [' '] + ("is not set" + "\n");
    SplitAtFirst(name, ' ', "is not set" + "\n");
    assert ("is not set" + "\n")[..10] == "is not set";
  }

  lemma UnsetWritten(name: string, t: SymbolType)
    requires t in {Boolean, TristateType}
    ensures Written(name, t, "n") == "# " + PREFIX + name + UNSET + "\n"
  {
  }

  /** Booleans and tristates come back. */
  lemma TristateRestored(name: string, t: SymbolType, v: Tristate, rest: string, find: string -> Option<SymbolType>)
    requires NameText(name) && find(name) == Some(t) && t in {Boolean, TristateType} && (t == Boolean ==> v != MOD)
    ensures ReadLine(FirstLine(Written(name, t, Letter(v)) + rest), find) == Some((name, Tri(v)))
  {
    if v == NO {
      UnsetWritten(name, t);
      ReadsUnset(name, rest, find);
    } else {
      var c := if v == MOD then 'm' else 'y';
      assert Letter(v) == [c] && SetValue(t, [c]) == Some(Tri(v));
      ReadsAssignment(name, [c], rest, find);
    }
  }

  /** Valid numbers come back. */
  lemma NumberRestored(name: string, t: SymbolType, s: string, rest: string, find: string -> Option<SymbolType>)
    requires NameText(name) && find(name) == Some(t) && t in {IntType, HexType} && StringValid(t, s)
    ensures ReadLine(FirstLine(Written(name, t, s) + rest), find) == Some((name, Str(s)))
  {
    NumberText(t, s);
    ReadsAssignment(name, s, rest, find);
  }

  lemma NumberText(t: SymbolType, s: string)
    requires t in {IntType, HexType} && StringValid(t, s)
    ensures '\n' !in s && s != [] && s[|s| - 1] != '\r'
  {
    if t == IntType && s[0] == '-' {
      forall k | 1 <= k < |s| ensures Digit(s[k]) { assert s[k] == s[1..][k - 1]; }
    } else if t == HexType && |s| >= 2 && s[0] == '0' && (s[1] == 'x' || s[1] == 'X') {
      forall k | 2 <= k < |s| ensures HexDigit(s[k]) { assert s[k] == s[2..][k - 2]; }
    } else if t == HexType {
      assert forall k :: 0 <= k < |s| ==> HexDigit(s[k]);
    } else {
      assert forall k :: 0 <= k < |s| ==> Digit(s[k]);
    }
  }

  lemma {:induction false} BodyKeeps(s: string, c: char)
    requires !Special(c)
    ensures c in Body(s) <==> c in s
  {
    if s != [] {
      BodyKeeps(s[1..], c);
      assert s == [s[0]] + s[1..];
    }
  }

  /** Strings come back exactly when they hold no newline. */
  lemma StringRestored(name: string, s: string, rest: string, find: string -> Option<SymbolType>)
    requires NameText(name) && find(name) == Some(StringType)
    ensures ReadLine(FirstLine(Written(name, StringType, s) + rest), find) == Some((name, Str(s))) <==> '\n' !in s
  {
    BodyKeeps(s, '\n');
    if '\n' !in s {
      ReadsAssignment(name, Escaped(s), rest, find);
      UnquotedBody(s, []);
      assert Escaped(s)[1..] == Body(s) + ['"'] + [];
    } else {
      StringCut(name, s, rest, find);
    }
  }

  lemma CutAt(name: string, s: string, k: nat, rest: string) returns (more: string)
    requires k < |s| && s[k] == '\n'
    ensures Written(name, StringType, s) + rest == PREFIX + name + "=" + (['"'] + Body(s[..k])) + "\n" + more
  {
    var a, b := s[..k], s[k + 1..];
    assert s == a + (['\n'] + b) && (['\n'] + b)[1..] == b;
    BodyAppend(a, ['\n'] + b);
    more := Body(b) + "\"\n" + rest;
  }

  /** With a newline the line ends inside the quotes, and nothing is read. */
  lemma StringCut(name: string, s: string, rest: string, find: string -> Option<SymbolType>)
    requires NameText(name) && find(name) == Some(StringType) && '\n' in s
    ensures ReadLine(FirstLine(Written(name, StringType, s) + rest), find) == None
  {
    var k := FirstIndex(s, '\n');
    var a := s[..k];
    BodyKeeps(a, '\n');
    var value := ['"'] + Body(a);
    var more := CutAt(name, s, k, rest);
    ReadsAssignment(name, value, more, find);
    OpenQuote(a);
  }

  lemma NoValue(y: string)
    requires Unquoted(y) == None
    ensures SetValue(StringType, ['"'] + y) == None
  {
    assert (['"'] + y)[1..] == y;
  }

  lemma OpenQuote(a: string)
    ensures var value := ['"'] + Body(a);
      SetValue(StringType, if value[|value| - 1] == '\r' then value[..|value| - 1] else value) == None
  {
    var value := ['"'] + Body(a);
    if value[|value| - 1] == '\r' {
      BodyEnd(a);
      UnquotedOpen(a[..|a| - 1]);
      NoValue(Body(a[..|a| - 1]));
      assert value[..|value| - 1] == ['"'] + Body(a[..|a| - 1]);
    } else {
      UnquotedOpen(a);
      NoValue(Body(a));
    }
  }

  function FirstIndex(s: string, c: char): (k: nat)
    requires c in s
    ensures k < |s| && s[k] == c && c !in s[..k]
  {
    if s[0] == c then 0 else
      assert s == [s[0]] + s[1..];
      var k := FirstIndex(s[1..], c);
      assert s[..k + 1] == [s[0]] + s[1..][..k];
      k + 1
  }

  /** A carriage return at the end of the escaped text is one at the end of the text. */
  lemma BodyEnd(s: string)
    requires Body(s) != [] && Body(s)[|Body(s)| - 1] == '\r'
    ensures s != [] && s[|s| - 1] == '\r' && Body(s) == Body(s[..|s| - 1]) + ['\r']
  {
    var n := |s| - 1;
    assert s == s[..n] + [s[n]];
    BodyAppend(s[..n], [s[n]]);
  }
}

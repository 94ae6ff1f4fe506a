/** MD5 as scripts/mkhash.c computes it, against RFC 1321: sixty-four operations on registers with rotating roles, the
    split byte counter, buffered updates, padding. */
module Md5 {
  import opened Blocks

  type Word = bv32

  // ---------- RFC 1321, section 3.4 ----------

  function AuxF(x: Word, y: Word, z: Word): Word { (x & y) | (!x & z) }

  function AuxG(x: Word, y: Word, z: Word): Word { (x & z) | (y & !z) }

  function AuxH(x: Word, y: Word, z: Word): Word { x ^ y ^ z }

  function AuxI(x: Word, y: Word, z: Word): Word { y ^ (x | !z) }

  function Aux(i: nat, x: Word, y: Word, z: Word): Word {
    if i < 16 then AuxF(x, y, z) else if i < 32 then AuxG(x, y, z) else if i < 48 then AuxH(x, y, z) else AuxI(x, y, z)
  }

  function Add(x: Word, y: Word): Word { x + y }

  function Sum(a: Word, f: Word, x: Word, t: Word): Word { a + f + x + t }

  predicate IsShift(s: nat) { s in {4, 5, 6, 7, 9, 10, 11, 12, 14, 15, 16, 17, 20, 21, 22, 23} }

  function Rotate(x: Word, s: nat): Word
    requires IsShift(s)
  {
    x.RotateLeft(s)
  }

  /** b + ((a + f + x + t) <<< s). */
  function Operate(f: Word, a: Word, b: Word, x: Word, t: Word, s: nat): Word
    requires IsShift(s)
  {
    Add(b, Rotate(Sum(a, f, x, t), s))
  }

  /** Message word, constant and shift of one operation. */
  datatype Line = Line(k: nat, t: Word, s: nat)

  const FIRST: seq<Line> := [
    Line(0, 0xd76aa478, 7), Line(1, 0xe8c7b756, 12), Line(2, 0x242070db, 17), Line(3, 0xc1bdceee, 22),
    Line(4, 0xf57c0faf, 7), Line(5, 0x4787c62a, 12), Line(6, 0xa8304613, 17), Line(7, 0xfd469501, 22),
    Line(8, 0x698098d8, 7), Line(9, 0x8b44f7af, 12), Line(10, 0xffff5bb1, 17), Line(11, 0x895cd7be, 22),
    Line(12, 0x6b901122, 7), Line(13, 0xfd987193, 12), Line(14, 0xa679438e, 17), Line(15, 0x49b40821, 22)
  ]

  const SECOND: seq<Line> := [
    Line(1, 0xf61e2562, 5), Line(6, 0xc040b340, 9), Line(11, 0x265e5a51, 14), Line(0, 0xe9b6c7aa, 20),
    Line(5, 0xd62f105d, 5), Line(10, 0x02441453, 9), Line(15, 0xd8a1e681, 14), Line(4, 0xe7d3fbc8, 20),
    Line(9, 0x21e1cde6, 5), Line(14, 0xc33707d6, 9), Line(3, 0xf4d50d87, 14), Line(8, 0x455a14ed, 20),
    Line(13, 0xa9e3e905, 5), Line(2, 0xfcefa3f8, 9), Line(7, 0x676f02d9, 14), Line(12, 0x8d2a4c8a, 20)
  ]

  const THIRD: seq<Line> := [
    Line(5, 0xfffa3942, 4), Line(8, 0x8771f681, 11), Line(11, 0x6d9d6122, 16), Line(14, 0xfde5380c, 23),
    Line(1, 0xa4beea44, 4), Line(4, 0x4bdecfa9, 11), Line(7, 0xf6bb4b60, 16), Line(10, 0xbebfbc70, 23),
    Line(13, 0x289b7ec6, 4), Line(0, 0xeaa127fa, 11), Line(3, 0xd4ef3085, 16), Line(6, 0x04881d05, 23),
    Line(9, 0xd9d4d039, 4), Line(12, 0xe6db99e5, 11), Line(15, 0x1fa27cf8, 16), Line(2, 0xc4ac5665, 23)
  ]

  const FOURTH: seq<Line> := [
    Line(0, 0xf4292244, 6), Line(7, 0x432aff97, 10), Line(14, 0xab9423a7, 15), Line(5, 0xfc93a039, 21),
    Line(12, 0x655b59c3, 6), Line(3, 0x8f0ccc92, 10), Line(10, 0xffeff47d, 15), Line(1, 0x85845dd1, 21),
    Line(8, 0x6fa87e4f, 6), Line(15, 0xfe2ce6e0, 10), Line(6, 0xa3014314, 15), Line(13, 0x4e0811a1, 21),
    Line(4, 0xf7537e82, 6), Line(11, 0xbd3af235, 10), Line(2, 0x2ad7d2bb, 15), Line(9, 0xeb86d391, 21)
  ]
  /** The operations of the four rounds. */
  function Lines(): (lines: seq<Line>)
    ensures |lines| == 64
  {
    FIRST + SECOND + THIRD + FOURTH
  }

  predicate Usable(l: Line) { l.k < 16 && IsShift(l.s) }

  predicate AllUsable(lines: seq<Line>) { forall l :: l in lines ==> Usable(l) }

  datatype Regs = Regs(a: Word, b: Word, c: Word, d: Word)

  /** One operation; the registers move on by one place. */
  function Operation(i: nat, l: Line, r: Regs, x: seq<Word>): Regs
    requires |x| == 16 && Usable(l)
  {
    Regs(r.d, Operate(Aux(i, r.b, r.c, r.d), r.a, r.b, x[l.k], l.t, l.s), r.b, r.c)
  }

  function Operations(r: Regs, x: seq<Word>, lines: seq<Line>, n: nat): Regs
    requires |x| == 16 && n <= |lines| && AllUsable(lines)
  {
    if n == 0 then r else Operation(n - 1, lines[n - 1], Operations(r, x, lines, n - 1), x)
  }

  // ---------- the tables ----------

  function MessageIndex(i: nat): nat {
    if i < 16 then i else if i < 32 then (5 * i + 1) % 16 else if i < 48 then (3 * i + 5) % 16 else 7 * i % 16
  }

  function Shift(i: nat): nat {
    if i < 16 then [7, 12, 17, 22][i % 4]
    else if i < 32 then [5, 9, 14, 20][i % 4]
    else if i < 48 then [4, 11, 16, 23][i % 4]
    else [6, 10, 15, 21][i % 4]
  }

  /** The message words and shifts of the table are those of the standard. */
  lemma LinesFollow(i: nat)
    requires i < 64
    ensures Lines()[i].k == MessageIndex(i) && Lines()[i].s == Shift(i) && Usable(Lines()[i])
  {
    if i < 16 {
      FirstFollows(i);
    } else if i < 32 {
      SecondFollows(i);
    } else if i < 48 {
      ThirdFollows(i);
    } else {
      FourthFollows(i);
    }
  }

  lemma FirstFollows(i: nat)
    requires i < 16
    ensures FIRST[i].k == MessageIndex(i) && FIRST[i].s == Shift(i) && Usable(FIRST[i])
  {
  }

  lemma SecondFollows(i: nat)
    requires 16 <= i < 32
    ensures SECOND[i - 16].k == MessageIndex(i) && SECOND[i - 16].s == Shift(i) && Usable(SECOND[i - 16])
  {
  }

  lemma ThirdFollows(i: nat)
    requires 32 <= i < 48
    ensures THIRD[i - 32].k == MessageIndex(i) && THIRD[i - 32].s == Shift(i) && Usable(THIRD[i - 32])
  {
  }

  lemma FourthFollows(i: nat)
    requires 48 <= i < 64
    ensures FOURTH[i - 48].k == MessageIndex(i) && FOURTH[i - 48].s == Shift(i) && Usable(FOURTH[i - 48])
  {
  }

  // ---------- the code's forms ----------

  function F(x: Word, y: Word, z: Word): (r: Word)
    ensures r == AuxF(x, y, z)
  {
    assert z ^ (x & (y ^ z)) == (x & y) | (!x & z);
    z ^ (x & (y ^ z))
  }

  function G(x: Word, y: Word, z: Word): (r: Word)
    ensures r == AuxG(x, y, z)
  {
    assert y ^ (z & (x ^ y)) == (x & z) | (y & !z);
    y ^ (z & (x ^ y))
  }

  function H(x: Word, y: Word, z: Word): (r: Word)
    ensures r == AuxH(x, y, z)
  {
    (x ^ y) ^ z
  }

  function H2(x: Word, y: Word, z: Word): (r: Word)
    ensures r == AuxH(x, y, z)
  {
    x ^ (y ^ z)
  }

  function I(x: Word, y: Word, z: Word): (r: Word)
    ensures r == AuxI(x, y, z)
  {
    y ^ (x | !z)
  }

  function AuxInPlace(i: nat, x: Word, y: Word, z: Word): (r: Word)
    ensures r == Aux(i, x, y, z)
  {
    if i < 16 then F(x, y, z) else if i < 32 then G(x, y, z)
    else if i < 48 then (if i % 2 == 0 then H(x, y, z) else H2(x, y, z)) else I(x, y, z)
  }

  function SumInPlace(a: Word, f: Word, x: Word, t: Word): (r: Word)
    ensures r == Sum(a, f, x, t)
  {
    assert a + (f + x + t) == a + f + x + t;
    a + (f + x + t)
  }

  function RotateInPlace(x: Word, s: nat): (r: Word)
    requires IsShift(s)
    ensures r == Rotate(x, s)
  {
    (x << s) | ((x & 0xffff_ffff) >> (32 - s))
  }

  /** STEP. */
  function Step(f: Word, a: Word, b: Word, x: Word, t: Word, s: nat): (r: Word)
    requires IsShift(s)
    ensures r == Operate(f, a, b, x, t, s)
  {
    Add(RotateInPlace(SumInPlace(a, f, x, t), s), b)
  }

  /** The place of register number k (a is 0, d is 3) in operation i. */
  function Role(i: nat, k: nat): (p: nat)
    requires i <= 64 && k < 4
    ensures p < 4
  {
    (64 + k - i) % 4
  }

  function Roles(s: seq<Word>, i: nat): Regs
    requires |s| == 4 && i <= 64
  {
    Regs(s[Role(i, 0)], s[Role(i, 1)], s[Role(i, 2)], s[Role(i, 3)])
  }

  lemma RolesRotate(i: nat)
    requires i < 64
    ensures Role(i, 0) != Role(i, 1) && Role(i, 0) != Role(i, 2) && Role(i, 0) != Role(i, 3)
    ensures Role(i + 1, 0) == Role(i, 3) && Role(i + 1, 1) == Role(i, 0)
    ensures Role(i + 1, 2) == Role(i, 1) && Role(i + 1, 3) == Role(i, 2)
  {
  }

  method StepInPlace(S: array<Word>, i: nat, l: Line, x: seq<Word>)
    requires S.Length == 4 && |x| == 16 && i < 64 && Usable(l)
    modifies S
    ensures Roles(S[..], i + 1) == Operation(i, l, Roles(old(S[..]), i), x)
  {
    RolesRotate(i);
    var a, b, c, d := Role(i, 0), Role(i, 1), Role(i, 2), Role(i, 3);
    S[a] := Step(AuxInPlace(i, S[b], S[c], S[d]), S[a], S[b], x[l.k], l.t, l.s);
  }

  method Mix(S: array<Word>, x: seq<Word>, lines: seq<Line>)
    requires S.Length == 4 && |x| == 16 && |lines| == 64 && AllUsable(lines)
    modifies S
    ensures Roles(S[..], 0) == Operations(old(Roles(S[..], 0)), x, lines, |lines|)
  {
    ghost var r := Roles(S[..], 0);
    var i := 0;
    while i < 64
      invariant i <= 64 && Roles(S[..], i) == Operations(r, x, lines, i)
    {
      StepInPlace(S, i, lines[i], x);
      i := i + 1;
    }
  }

  // ---------- RFC 1321, sections 3.1 to 3.5 ----------

  function Le32Dec(p: seq<Byte>): (u: nat)
    requires |p| == 4
    ensures u < 0x1_0000_0000
  {
    var p0: nat, p1: nat, p2: nat, p3: nat := p[0], p[1], p[2], p[3];
    p0 + 0x100 * p1 + 0x1_0000 * p2 + 0x100_0000 * p3
  }

  function Le32Enc(u: nat): (p: seq<Byte>)
    requires u < 0x1_0000_0000
    ensures |p| == 4 && Le32Dec(p) == u
  {
    Shifts(u);
    [u % 0x100, u / 0x100 % 0x100, u / 0x1_0000 % 0x100, u / 0x100_0000 % 0x100]
  }

  function BlockWords(b: Block): seq<Word> {
    seq(16, i requires 0 <= i < 16 => Le32Dec(b[4 * i..4 * i + 4]) as Word)
  }

  function Plus(r: Regs, q: Regs): Regs { Regs(Add(r.a, q.a), Add(r.b, q.b), Add(r.c, q.c), Add(r.d, q.d)) }

  lemma LinesUsable()
    ensures AllUsable(Lines())
  {
    forall i | 0 <= i < 64
      ensures Usable(Lines()[i])
    {
      LinesFollow(i);
    }
  }

  function Compress(r: Regs, b: Block): Regs {
    LinesUsable();
    Plus(r, Operations(r, BlockWords(b), Lines(), |Lines()|))
  }

  const INITIAL: Regs := Regs(0x6745_2301, 0xefcd_ab89, 0x98ba_dcfe, 0x1032_5476)

  const TWO_29: nat := 0x2000_0000
  const TWO_32: nat := 0x1_0000_0000
  const TWO_61: nat := 0x2000_0000_0000_0000

  function Hash(m: seq<Byte>): Regs { Absorb(Compress, INITIAL, m) }

  /** A number of bits modulo 2 to the 64, as two words, low-order word first. */
  function LengthBytes(bits: nat): (p: seq<Byte>)
    ensures |p| == 8
  {
    Le32Enc(bits % TWO_32) + Le32Enc(bits / TWO_32 % TWO_32)
  }

  lemma LengthValue(bits: nat)
    ensures Le32Dec(LengthBytes(bits)[..4]) + TWO_32 * Le32Dec(LengthBytes(bits)[4..]) == bits % 0x1_0000_0000_0000_0000
  {
    var low, high := Le32Enc(bits % TWO_32), Le32Enc(bits / TWO_32 % TWO_32);
    assert LengthBytes(bits)[..4] == low && LengthBytes(bits)[4..] == high;
  }

  function Encode(r: Regs): (p: seq<Byte>)
    ensures |p| == 16
  {
    Le32Enc(r.a as nat) + Le32Enc(r.b as nat) + Le32Enc(r.c as nat) + Le32Enc(r.d as nat)
  }

  function Digest(m: seq<Byte>): seq<Byte> { Encode(Hash(Padded(m, LengthBytes(8 * |m|)))) }

  // ---------- streaming ----------

  /** lo and hi count the bytes modulo 2 to the 61; the carry shows in lo having become smaller. */
  lemma CountStep(lo: nat, hi: nat, n: nat, size: nat)
    requires lo < TWO_29 && hi < TWO_32 && hi * TWO_29 + lo == n % TWO_61
    ensures
      var lo' := (lo + size) % TWO_29;
      var carried := (if lo' < lo then hi + 1 else hi) % TWO_32;
      (carried + size / TWO_29) % TWO_32 * TWO_29 + lo' == (n + size) % TWO_61
  {
    var lo' := (lo + size) % TWO_29;
    var carry := if lo' < lo then 1 else 0;
    assert lo + size == (size / TWO_29 + carry) * TWO_29 + lo';
    var total := hi + carry + size / TWO_29;
    assert ((hi + carry) % TWO_32 + size / TWO_29) % TWO_32 == total % TWO_32;
    assert n + size == n / TWO_61 * TWO_61 + total * TWO_29 + lo';
    assert total * TWO_29 == total / TWO_32 * TWO_61 + total % TWO_32 * TWO_29;
  }

  lemma CountBits(lo: nat, hi: nat, n: nat)
    requires lo < TWO_29 && hi < TWO_32 && hi * TWO_29 + lo == n % TWO_61
    ensures 8 * lo == 8 * n % TWO_32 && hi == 8 * n / TWO_32 % TWO_32
    ensures lo % 64 == n % 64
  {
    var q := n / TWO_61;
    Divided(8 * n, TWO_32, q * TWO_32 + hi, 8 * lo);
    Divided(q * TWO_32 + hi, TWO_32, q, hi);
    Divided(n, 64, q * 0x80_0000_0000_0000 + hi * 0x80_0000 + lo / 64, lo % 64);
  }

  /** The counter gives the length bytes. */
  lemma CountedLength(lo: nat, hi: nat, n: nat)
    requires lo < TWO_29 && hi < TWO_32 && hi * TWO_29 + lo == n % TWO_61
    ensures Le32Enc(8 * lo % TWO_32) + Le32Enc(hi) == LengthBytes(8 * n)
  {
    CountBits(lo, hi, n);
    Divided(8 * lo, TWO_32, 0, 8 * lo);
  }

  lemma Divided(x: nat, k: nat, q: nat, r: nat)
    requires x == q * k + r && r < k
    ensures x / k == q && x % k == r
  {
    var d := x / k - q;
    assert k * d == r - x % k;
  }

  /** One round of the loop of MD5_body. */
  method BodyStep(S: array<Word>, block: Block)
    requires S.Length == 4
    modifies S
    ensures Roles(S[..], 0) == Compress(old(Roles(S[..], 0)), block)
  {
    LinesUsable();
    var saved := Roles(S[..], 0);
    Mix(S, BlockWords(block), Lines());
    S[0], S[1], S[2], S[3] := Add(S[0], saved.a), Add(S[1], saved.b), Add(S[2], saved.c), Add(S[3], saved.d);
    AddCommutes(Operations(saved, BlockWords(block), Lines(), |Lines()|), saved);
  }

  lemma AddCommutes(r: Regs, q: Regs)
    ensures Plus(r, q) == Plus(q, r)
  {
  }

  lemma EndPieces(m: seq<Byte>, r: nat)
    requires r == |m| % 64
    ensures r < 56 ==> m + ([0x80] + Zeros(55 - r)) == m + [0x80] + Zeros(ZeroCount(|m|))
    ensures r >= 56 ==> m + ([0x80] + Zeros(63 - r)) + Zeros(56) == m + [0x80] + Zeros(ZeroCount(|m|))
  {
    assert ZeroCount(|m|) == if r < 56 then 55 - r else 119 - r;
    if r >= 56 { assert Zeros(63 - r) + Zeros(56) == Zeros(119 - r); }
  }

  /** The chaining value and the first bytes of the buffer stand for a message and data not yet folded in. */
  ghost predicate Stands(r: Regs, buffer: seq<Byte>, m: seq<Byte>, data: seq<Byte>) {
    && |buffer| == 64 && |m| % 64 + |data| <= 64
    && r == Hash(m) && buffer[..|m| % 64 + |data|] == Tail(m) + data
  }

  /** MD5_CTX: the chaining value, the byte counter in two words, and the bytes of an unfinished block; the message is
      all that has been hashed. */
  class Context {
    var lo: nat
    var hi: nat
    var a: Word
    var b: Word
    var c: Word
    var d: Word
    const buffer: array<Byte>
    ghost var message: seq<Byte>

    function Current(): Regs
      reads this
    {
      Regs(a, b, c, d)
    }

    ghost predicate Holds(m: seq<Byte>, data: seq<Byte>)
      reads this, buffer
    {
      Stands(Current(), buffer[..], m, data)
    }

    ghost predicate Counts(n: nat)
      reads this
    {
      lo < TWO_29 && hi < TWO_32 && hi * TWO_29 + lo == n % TWO_61
    }

    ghost predicate Valid()
      reads this, buffer
    {
      Holds(message, []) && Counts(|message|)
    }

    /** MD5_begin. */
    constructor ()
      ensures Valid() && message == [] && fresh(buffer)
    {
      a, b, c, d := INITIAL.a, INITIAL.b, INITIAL.c, INITIAL.d;
      lo, hi := 0, 0;
      buffer := new Byte[64];
      message := [];
    }

    /** memcpy or memset into the buffer. */
    method Copy(p: nat, data: seq<Byte>)
      requires buffer.Length == 64 && p + |data| <= 64
      modifies buffer
      ensures buffer[..p + |data|] == old(buffer[..p]) + data
    {
      forall k | 0 <= k < |data| { buffer[p + k] := data[k]; }
    }

    /** The same, after what it holds. */
    method Append(used: nat, more: seq<Byte>, ghost m: seq<Byte>, ghost data: seq<Byte>)
      requires Holds(m, data) && used == |m| % 64 + |data| && used + |more| <= 64
      modifies buffer
      ensures Holds(m, data + more) && (data == [] ==> Holds(m, more))
    {
      assert [] + more == more;
      Copy(used, more);
    }

    /** Data that leave the block unfinished become part of the message. */
    lemma Settle(m: seq<Byte>, data: seq<Byte>)
      requires Holds(m, data) && |m| % 64 + |data| < 64
      ensures Holds(m + data, [])
    {
      Buffered(Compress, INITIAL, m, data);
    }

    /** MD5_body: folds in one or more blocks. */
    method Body(data: seq<Byte>)
      requires |data| % 64 == 0 && data != []
      modifies `a, `b, `c, `d
      ensures Current() == Absorb(Compress, old(Current()), data)
    {
      var S := new Word[4];
      S[0], S[1], S[2], S[3] := a, b, c, d;
      ghost var r := Current();
      var ptr, size := 0, |data|;
      ghost var blocks := |data| / 64;
      while true
        invariant ptr + size == |data| && blocks > 0 && size == 64 * blocks && ptr % 64 == 0
        invariant Roles(S[..], 0) == Absorb(Compress, r, data[..ptr])
        invariant Current() == r
        decreases size
      {
        BodyStep(S, data[ptr..ptr + 64]);
        AbsorbNext(Compress, r, data, ptr);
        ptr := ptr + 64;
        size := size - 64;
        blocks := blocks - 1;
        if size == 0 { break; }
      }
      assert data[..ptr] == data;
      a, b, c, d := S[0], S[1], S[2], S[3];
    }

    /** The block in the buffer is complete and is folded in. */
    method Flush(ghost m: seq<Byte>, ghost data: seq<Byte>)
      requires Holds(m, data) && |m| % 64 + |data| == 64
      modifies `a, `b, `c, `d
      ensures Holds(m + data, []) && |m + data| % 64 == 0
    {
      Filled(Compress, INITIAL, m, data);
      assert buffer[..] == Tail(m) + data;
      Body(buffer[..]);
      OneBlock(old(Current()), buffer[..]);
    }

    lemma OneBlock(r: Regs, data: Block)
      ensures Absorb(Compress, r, data) == Compress(r, data)
    {
      assert data[..64] == data && data[64..] == [];
    }

    /** The counter part of MD5_hash. */
    method Count(size: nat, ghost n: nat) returns (used: nat)
      requires Counts(n)
      modifies `lo, `hi
      ensures Counts(n + size) && used == n % 64
    {
      CountStep(lo, hi, n, size);
      CountBits(lo, hi, n);
      var saved := lo;
      lo := (saved + size) % TWO_29;
      if lo < saved { hi := (hi + 1) % TWO_32; }
      hi := (hi + size / TWO_29) % TWO_32;
      used := saved % 64;
    }

    /** MD5_hash: counts the bytes and takes in the data. */
    method Update(data: seq<Byte>)
      requires Valid()
      modifies this, buffer
      ensures Valid() && message == old(message) + data
    {
      ghost var m := message;
      var used := Count(|data|, |m|);
      Take(used, data, m);
      message := m + data;
    }

    /** Completes the block in the buffer if there is one and the data reach that far. */
    method Take(used: nat, data: seq<Byte>, ghost m: seq<Byte>)
      requires Holds(m, []) && used == |m| % 64
      modifies `a, `b, `c, `d, buffer
      ensures Holds(m + data, [])
    {
      if used == 0 {
        TakeBlocks(data, m);
        return;
      }
      var available := 64 - used;
      if |data| < available {
        Append(used, data, m, []);
        Settle(m, data);
        return;
      }
      Append(used, data[..available], m, []);
      Flush(m, data[..available]);
      TakeBlocks(data[available..], m + data[..available]);
      assert m + data[..available] + data[available..] == m + data;
    }

    /** Folds in the whole blocks and keeps the rest. */
    method TakeBlocks(data: seq<Byte>, ghost m: seq<Byte>)
      requires Holds(m, []) && |m| % 64 == 0
      modifies `a, `b, `c, `d, buffer
      ensures Holds(m + data, [])
    {
      var whole := WholeLength(|data|);
      AbsorbWhole(Compress, INITIAL, m, data);
      if |data| >= 64 { Body(data[..whole]); }
      Copy(0, data[whole..]);
      assert Tail(m + data) + [] == data[whole..];
    }

    /** MD5_end: the digest of the message, and a cleared context. */
    method Final(digest: array<Byte>)
      requires Valid() && digest.Length == 16 && digest != buffer
      modifies this, buffer, digest
      ensures digest[..] == Digest(old(message))
      ensures lo == 0 && hi == 0 && Current() == Regs(0, 0, 0, 0) && buffer[..] == Zeros(64)
    {
      AddPadding(message);
      var out := Encode(Current());
      forall k | 0 <= k < 16 { digest[k] := out[k]; }
      assert digest[..] == out;
      a, b, c, d, lo, hi := 0, 0, 0, 0, 0, 0;
      forall k | 0 <= k < 64 { buffer[k] := 0; }
    }

    method AddPadding(ghost m: seq<Byte>)
      requires Holds(m, []) && Counts(|m|)
      modifies `a, `b, `c, `d, `lo, buffer
      ensures Current() == Hash(Padded(m, LengthBytes(8 * |m|)))
    {
      CountBits(lo, hi, |m|);
      CountedLength(lo, hi, |m|);
      ghost var zeros := AddEnd(lo % 64, m);
      lo := 8 * lo % TWO_32;
      AddLength(Le32Enc(lo) + Le32Enc(hi), m + [0x80] + zeros);
    }

    /** The end marker and the zeros, with the block finished if the length does not fit in it. */
    method AddEnd(r: nat, ghost m: seq<Byte>) returns (ghost zeros: seq<Byte>)
      requires Holds(m, []) && r == |m| % 64
      modifies `a, `b, `c, `d, buffer
      ensures zeros == Zeros(ZeroCount(|m|)) && Holds(m + [0x80] + zeros, []) && |m + [0x80] + zeros| % 64 == 56
    {
      zeros := Zeros(ZeroCount(|m|));
      var used := r;
      Append(used, [0x80], m, []);
      used := used + 1;
      var available := 64 - used;
      if available < 8 {
        Append(used, Zeros(available), m, [0x80]);
        EndPieces(m, r);
        Flush(m, [0x80] + Zeros(available));
        used, available := 0, 64;
        Append(used, Zeros(available - 8), m + ([0x80] + Zeros(63 - r)), []);
        Settle(m + ([0x80] + Zeros(63 - r)), Zeros(56));
      } else {
        Append(used, Zeros(available - 8), m, [0x80]);
        EndPieces(m, r);
        Settle(m, [0x80] + Zeros(55 - r));
      }
    }

    /** The length, and the last block folded in. */
    method AddLength(length: seq<Byte>, ghost m: seq<Byte>)
      requires Holds(m, []) && |m| % 64 == 56 && |length| == 8
      modifies `a, `b, `c, `d, buffer
      ensures Current() == Hash(m + length)
    {
      Append(56, length, m, []);
      Flush(m, length);
    }
  }

  /** md5_hash: however the input arrives, the digest is that of the whole. */
  method HashChunks(chunks: seq<seq<Byte>>) returns (digest: array<Byte>)
    ensures digest[..] == Digest(Concat(chunks))
  {
    var ctx := new Context();
    var i := 0;
    while i < |chunks|
      invariant i <= |chunks| && ctx.Valid() && ctx.message == Concat(chunks[..i])
      invariant fresh(ctx) && fresh(ctx.buffer)
    {
      ctx.Update(chunks[i]);
      assert chunks[..i + 1][..i] == chunks[..i];
      i := i + 1;
    }
    assert chunks[..i] == chunks;
    digest := new Byte[16];
    ctx.Final(digest);
  }
}

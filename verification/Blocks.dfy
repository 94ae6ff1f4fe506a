/** Messages read in blocks of 64 bytes, as both digests of scripts/mkhash.c read them: a message of any length is
    its full blocks, folded into a chaining value one after the other, and a tail that waits in a buffer. */
module Blocks {
  type Byte = x: nat | x < 256

  type Block = b: seq<Byte> | |b| == 64 witness seq(64, _ => 0)

  /** The chaining value after all full blocks of a message. */
  function Absorb<H>(f: (H, Block) -> H, h: H, m: seq<Byte>): H {
    if |m| < 64 then h else Absorb(f, f(h, m[..64]), m[64..])
  }

  /** What is left over. */
  function Tail(m: seq<Byte>): (t: seq<Byte>)
    ensures |t| == |m| % 64
  {
    m[|m| - |m| % 64..]
  }

  /** The number that bytes stand for, most significant byte first. */
  function BigEndian(p: seq<Byte>): nat {
    if p == [] then 0
    else
      var last: nat := p[|p| - 1];
      0x100 * BigEndian(p[..|p| - 1]) + last
  }

  lemma {:induction false} BigEndianAppend(p: seq<Byte>, x: Byte)
    ensures BigEndian(p + [x]) == 0x100 * BigEndian(p) + x as nat
  {
    assert (p + [x])[..|p|] == p;
  }

  lemma Rejoin(m: seq<Byte>, data: seq<Byte>, k: nat)
    requires k <= |data|
    ensures m + data[..k] + data[k..] == m + data
  {
  }

  /** Shifts by eight bits, one after the other. */
  lemma Shifts(u: nat)
    ensures u / 0x1_0000 == u / 0x100 / 0x100
    ensures u / 0x100_0000 == u / 0x100 / 0x100 / 0x100
    ensures u < 0x1_0000_0000 ==> u / 0x100 / 0x100 / 0x100 < 0x100
  {
    var x := u / 0x100;
    var y := x / 0x100;
    assert 0x1_0000 * y <= u < 0x1_0000 * y + 0x1_0000;
    assert 0x100_0000 * (y / 0x100) <= u < 0x100_0000 * (y / 0x100) + 0x100_0000;
  }

  function Zeros(n: nat): seq<Byte> { seq(n, _ => 0) }

  /** More data that do not complete a block only lengthen the tail. */
  lemma {:induction false} Buffered<H>(f: (H, Block) -> H, h: H, m: seq<Byte>, data: seq<Byte>)
    requires |m| % 64 + |data| < 64
    ensures Absorb(f, h, m + data) == Absorb(f, h, m)
    ensures Tail(m + data) == Tail(m) + data
    decreases |m|
  {
    if |m| >= 64 {
      Buffered(f, f(h, m[..64]), m[64..], data);
      assert (m + data)[..64] == m[..64] && (m + data)[64..] == m[64..] + data;
    }
  }

  /** Data that complete the block are folded in together with the tail. */
  lemma {:induction false} Filled<H>(f: (H, Block) -> H, h: H, m: seq<Byte>, data: seq<Byte>)
    requires |m| % 64 + |data| == 64
    ensures Absorb(f, h, m + data) == f(Absorb(f, h, m), Tail(m) + data)
    ensures Tail(m + data) == []
    decreases |m|
  {
    if |m| >= 64 {
      Filled(f, f(h, m[..64]), m[64..], data);
      assert (m + data)[..64] == m[..64] && (m + data)[64..] == m[64..] + data;
      assert Tail(m[64..]) == Tail(m);
    } else {
      assert Tail(m) == m && (m + data)[..64] == m + data && (m + data)[64..] == [];
    }
  }

  /** Blocks can be folded in several at a time. */
  lemma {:induction false} AbsorbMore<H>(f: (H, Block) -> H, h: H, m: seq<Byte>, data: seq<Byte>)
    requires |m| % 64 == 0
    ensures Absorb(f, h, m + data) == Absorb(f, Absorb(f, h, m), data)
    decreases |m|
  {
    if m == [] {
      assert m + data == data;
    } else {
      AbsorbMore(f, f(h, m[..64]), m[64..], data);
      assert (m + data)[..64] == m[..64] && (m + data)[64..] == m[64..] + data;
    }
  }

  /** The next block of a message that consists of blocks. */
  lemma AbsorbNext<H>(f: (H, Block) -> H, h: H, m: seq<Byte>, k: nat)
    requires k % 64 == 0 && k + 64 <= |m|
    ensures Absorb(f, h, m[..k + 64]) == f(Absorb(f, h, m[..k]), m[k..k + 64])
  {
    Filled(f, h, m[..k], m[k..k + 64]);
    assert Tail(m[..k]) + m[k..k + 64] == m[k..k + 64] && m[..k] + m[k..k + 64] == m[..k + 64];
  }

  function WholeLength(n: nat): (w: nat)
    ensures w % 64 == 0 && w <= n < w + 64
  {
    n - n % 64
  }

  lemma Aligned(p: nat, q: nat)
    requires p % 64 == 0 && q % 64 == 0
    ensures (p + q) % 64 == 0
  {
  }

  /** After whole blocks, more data consist of blocks and a tail. */
  lemma AbsorbWhole<H>(f: (H, Block) -> H, h: H, m: seq<Byte>, data: seq<Byte>)
    requires |m| % 64 == 0
    ensures Absorb(f, h, m + data) == Absorb(f, Absorb(f, h, m), data[..WholeLength(|data|)])
    ensures Tail(m + data) == data[WholeLength(|data|)..]
  {
    var whole, rest := data[..WholeLength(|data|)], data[WholeLength(|data|)..];
    AbsorbMore(f, h, m, whole);
    Aligned(|m|, |whole|);
    Buffered(f, h, m + whole, rest);
    assert m + whole + rest == m + data;
  }

  /** Number of zero bytes between the end marker and the eight length bytes. */
  function ZeroCount(n: nat): (k: nat)
    ensures k < 64 && (n + 1 + k) % 64 == 56
  {
    (55 - n) % 64
  }

  /** It is the smallest number that makes the length congruent to 56 modulo 64. */
  lemma ZeroCountLeast(n: nat, k: nat)
    requires (n + 1 + k) % 64 == 56
    ensures ZeroCount(n) <= k
  {
  }

  /** A message followed by the end marker, zeros and its length. */
  function Padded(m: seq<Byte>, length: seq<Byte>): (p: seq<Byte>)
    requires |length| == 8
    ensures |p| % 64 == 0
  {
    m + [0x80] + Zeros(ZeroCount(|m|)) + length
  }

  function Concat(chunks: seq<seq<Byte>>): seq<Byte> {
    if chunks == [] then [] else Concat(chunks[..|chunks| - 1]) + chunks[|chunks| - 1]
  }
}

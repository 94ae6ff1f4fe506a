/** SHA-256 as scripts/mkhash.c computes it, against the definitions of FIPS 180-4: block compression with rotating
    registers, buffered updates, padding. */
module Sha256 {
  import opened Blocks

  type Word = bv32

  // ---------- FIPS 180-4 ----------

  /** Section 4.1.2. */
  function SigmaA(x: Word): Word { x.RotateRight(2) ^ x.RotateRight(13) ^ x.RotateRight(22) }

  function SigmaE(x: Word): Word { x.RotateRight(6) ^ x.RotateRight(11) ^ x.RotateRight(25) }

  function ScheduleLow(x: Word): Word { x.RotateRight(7) ^ x.RotateRight(18) ^ (x >> 3) }

  function ScheduleHigh(x: Word): Word { x.RotateRight(17) ^ x.RotateRight(19) ^ (x >> 10) }

  function Choose(x: Word, y: Word, z: Word): Word { (x & y) ^ (!x & z) }

  function Majority(x: Word, y: Word, z: Word): Word { (x & y) ^ (x & z) ^ (y & z) }

  /** Section 4.2.2. */
  const K: seq<Word> :=
    [0x428a2f98, 0x71374491, 0xb5c0fbcf, 0xe9b5dba5, 0x3956c25b, 0x59f111f1, 0x923f82a4, 0xab1c5ed5] +
    [0xd807aa98, 0x12835b01, 0x243185be, 0x550c7dc3, 0x72be5d74, 0x80deb1fe, 0x9bdc06a7, 0xc19bf174] +
    [0xe49b69c1, 0xefbe4786, 0x0fc19dc6, 0x240ca1cc, 0x2de92c6f, 0x4a7484aa, 0x5cb0a9dc, 0x76f988da] +
    [0x983e5152, 0xa831c66d, 0xb00327c8, 0xbf597fc7, 0xc6e00bf3, 0xd5a79147, 0x06ca6351, 0x14292967] +
    [0x27b70a85, 0x2e1b2138, 0x4d2c6dfc, 0x53380d13, 0x650a7354, 0x766a0abb, 0x81c2c92e, 0x92722c85] +
    [0xa2bfe8a1, 0xa81a664b, 0xc24b8b70, 0xc76c51a3, 0xd192e819, 0xd6990624, 0xf40e3585, 0x106aa070] +
    [0x19a4c116, 0x1e376c08, 0x2748774c, 0x34b0bcb5, 0x391c0cb3, 0x4ed8aa4a, 0x5b9cca4f, 0x682e6ff3] +
    [0x748f82ee, 0x78a5636f, 0x84c87814, 0x8cc70208, 0x90befffa, 0xa4506ceb, 0xbef9a3f7, 0xc67178f2]

  /** Section 5.2.1: the words of a block are big-endian. */
  function BlockWord(b: Block, t: nat): Word
    requires t < 16
  {
    Be32Dec(b[4 * t..4 * t + 4]) as Word
  }

  function NextWord(w2: Word, w7: Word, w15: Word, w16: Word): Word {
    Add(Add(Add(ScheduleHigh(w2), w7), ScheduleLow(w15)), w16)
  }

  /** Section 6.2.2, step 1. */
  function Schedule(b: Block, t: nat): Word {
    if t < 16 then BlockWord(b, t)
    else NextWord(Schedule(b, t - 2), Schedule(b, t - 7), Schedule(b, t - 15), Schedule(b, t - 16))
  }

  function WholeSchedule(b: Block): seq<Word> { seq(64, t requires 0 <= t => Schedule(b, t)) }

  datatype State = State(a: Word, b: Word, c: Word, d: Word, e: Word, f: Word, g: Word, h: Word)

  function Add(x: Word, y: Word): Word { x + y }

  function Sum(h: Word, x: Word, y: Word, k: Word, w: Word): Word { h + x + y + k + w }

  /** Section 6.2.2, step 3: one round on the working variables. */
  function Round(s: State, k: Word, w: Word): State {
    var t1 := Sum(s.h, SigmaE(s.e), Choose(s.e, s.f, s.g), k, w);
    var t2 := Add(SigmaA(s.a), Majority(s.a, s.b, s.c));
    State(Add(t1, t2), s.a, s.b, s.c, Add(s.d, t1), s.e, s.f, s.g)
  }

  function Rounds(s: State, w: seq<Word>, k: seq<Word>, t: nat): State
    requires t <= |k| && t <= |w|
  {
    if t == 0 then s else Round(Rounds(s, w, k, t - 1), k[t - 1], w[t - 1])
  }

  function Plus(s: State, t: State): State {
    State(Add(s.a, t.a), Add(s.b, t.b), Add(s.c, t.c), Add(s.d, t.d), Add(s.e, t.e), Add(s.f, t.f), Add(s.g, t.g),
        Add(s.h, t.h))
  }

  /** Section 6.2.2: the next hash value. */
  function Compress(s: State, b: Block): State { Plus(s, Rounds(s, WholeSchedule(b), K, |K|)) }

  /** Section 5.3.3. */
  const INITIAL: State :=
    State(0x6a09e667, 0xbb67ae85, 0x3c6ef372, 0xa54ff53a, 0x510e527f, 0x9b05688c, 0x1f83d9ab, 0x5be0cd19)

  const TWO_64: nat := 0x1_0000_0000_0000_0000

  function Hash(m: seq<Byte>): State { Absorb(Compress, INITIAL, m) }

  /** The digest of a message; its length in bits is taken modulo 2 to the 64, which is no loss for the messages
      that the standard admits. */
  function Digest(m: seq<Byte>): seq<Byte> {
    Encode(Words(Hash(Padded(m, Be64Enc(8 * |m| % TWO_64)))))
  }

  // ---------- the code's forms of the logical functions ----------

  function Ch(x: Word, y: Word, z: Word): Word { (x & (y ^ z)) ^ z }

  function Maj(x: Word, y: Word, z: Word): Word { (x & (y | z)) | (y & z) }

  function S0(x: Word): Word { ((x >> 2) | (x << 30)) ^ ((x >> 13) | (x << 19)) ^ ((x >> 22) | (x << 10)) }

  function S1(x: Word): Word { ((x >> 6) | (x << 26)) ^ ((x >> 11) | (x << 21)) ^ ((x >> 25) | (x << 7)) }

  function LittleS0(x: Word): Word { ((x >> 7) | (x << 25)) ^ ((x >> 18) | (x << 14)) ^ (x >> 3) }

  function LittleS1(x: Word): Word { ((x >> 17) | (x << 15)) ^ ((x >> 19) | (x << 13)) ^ (x >> 10) }

  lemma ChIsChoose(x: Word, y: Word, z: Word)
    ensures Ch(x, y, z) == Choose(x, y, z)
  {
    assert (x & (y ^ z)) ^ z == (x & y) ^ (!x & z);
  }

  lemma MajIsMajority(x: Word, y: Word, z: Word)
    ensures Maj(x, y, z) == Majority(x, y, z)
  {
    assert (x & (y | z)) | (y & z) == (x & y) ^ (x & z) ^ (y & z);
  }

  lemma RotationForms(x: Word)
    ensures S0(x) == SigmaA(x) && S1(x) == SigmaE(x)
    ensures LittleS0(x) == ScheduleLow(x) && LittleS1(x) == ScheduleHigh(x)
  {
  }

  function Be16Dec(p: seq<Byte>): (u: nat)
    requires |p| >= 2
    ensures u < 0x1_0000
  {
    var high: nat, low: nat := p[0], p[1];
    0x100 * high + low
  }

  function Be32Dec(p: seq<Byte>): (u: nat)
    requires |p| >= 4
    ensures u < 0x1_0000_0000
  {
    0x1_0000 * Be16Dec(p) + Be16Dec(p[2..])
  }

  function Be32Enc(u: nat): (p: seq<Byte>)
    requires u < 0x1_0000_0000
    ensures |p| == 4
  {
    [u / 0x100_0000 % 0x100, u / 0x1_0000 % 0x100, u / 0x100 % 0x100, u % 0x100]
  }

  function Be64Enc(u: nat): (p: seq<Byte>)
    requires u < TWO_64
    ensures |p| == 8
  {
    Be32Enc(u / 0x1_0000_0000) + Be32Enc(u % 0x1_0000_0000)
  }

  lemma Be32RoundTrip(u: nat)
    requires u < 0x1_0000_0000
    ensures Be32Dec(Be32Enc(u)) == u
  {
    Shifts(u);
  }

  lemma Be32DecIsBigEndian(p: seq<Byte>, q: seq<Byte>)
    requires |q| == 4
    ensures BigEndian(p + q) == 0x1_0000_0000 * BigEndian(p) + Be32Dec(q)
  {
    assert p + q == p + [q[0]] + [q[1]] + [q[2]] + [q[3]];
    BigEndianAppend(p, q[0]);
    BigEndianAppend(p + [q[0]], q[1]);
    BigEndianAppend(p + [q[0]] + [q[1]], q[2]);
    BigEndianAppend(p + [q[0]] + [q[1]] + [q[2]], q[3]);
  }

  /** The eight length bytes are the number, most significant byte first. */
  lemma Be64EncIsBigEndian(u: nat)
    requires u < TWO_64
    ensures BigEndian(Be64Enc(u)) == u
  {
    var hi, lo := u / 0x1_0000_0000, u % 0x1_0000_0000;
    Be32DecIsBigEndian([], Be32Enc(hi));
    assert [] + Be32Enc(hi) == Be32Enc(hi);
    Be32DecIsBigEndian(Be32Enc(hi), Be32Enc(lo));
    Be32RoundTrip(hi);
    Be32RoundTrip(lo);
  }

  function Load(s: seq<Word>): State
    requires |s| == 8
  {
    State(s[0], s[1], s[2], s[3], s[4], s[5], s[6], s[7])
  }

  function Words(s: State): (w: seq<Word>)
    ensures |w| == 8 && Load(w) == s
  {
    [s.a, s.b, s.c, s.d, s.e, s.f, s.g, s.h]
  }

  lemma WordsOfLoad(w: seq<Word>)
    requires |w| == 8
    ensures Words(Load(w)) == w
  {
  }

  /** The bytes of a word vector. */
  function Encode(w: seq<Word>): (b: seq<Byte>)
    ensures |b| == 4 * |w|
  {
    if w == [] then [] else Encode(w[..|w| - 1]) + Be32Enc(w[|w| - 1] as nat)
  }

  // ---------- block compression in place ----------

  /** The array position of working variable number k (a is 0, h is 7) in round i: the roles rotate instead of the
      contents. */
  function Role(i: nat, k: nat): (p: nat)
    requires i < 64 && k < 8
    ensures p < 8
  {
    (64 + k - i) % 8
  }

  function Roles(s: seq<Word>, i: nat): State
    requires |s| == 8 && i < 64
  {
    State(s[Role(i, 0)], s[Role(i, 1)], s[Role(i, 2)], s[Role(i, 3)], s[Role(i, 4)], s[Role(i, 5)], s[Role(i, 6)],
        s[Role(i, 7)])
  }

  function SumInPlace(h: Word, x: Word, y: Word, kw: Word): Word { h + (x + y + kw) }

  function RoundInPlace(s: State, kw: Word): State {
    var h := SumInPlace(s.h, S1(s.e), Ch(s.e, s.f, s.g), kw);
    State(Add(h, Add(S0(s.a), Maj(s.a, s.b, s.c))), s.a, s.b, s.c, Add(s.d, h), s.e, s.f, s.g)
  }

  lemma RoundInPlaceIsRound(s: State, k: Word, w: Word)
    ensures RoundInPlace(s, Add(w, k)) == Round(s, k, w)
  {
    RotationForms(s.e);
    RotationForms(s.a);
    ChIsChoose(s.e, s.f, s.g);
    MajIsMajority(s.a, s.b, s.c);
  }

  lemma RolesRotate(i: nat)
    requires i < 63
    ensures forall j, k :: 0 <= j < k < 8 ==> Role(i, j) != Role(i, k)
    ensures forall k {:trigger Role(i + 1, k)} :: 0 < k < 8 ==> Role(i + 1, k) == Role(i, k - 1)
    ensures Role(i + 1, 0) == Role(i, 7)
  {
  }

  method Rndr(S: array<Word>, i: nat, kw: Word)
    requires S.Length == 8 && i < 63
    modifies S
    ensures Roles(S[..], i + 1) == RoundInPlace(Roles(old(S[..]), i), kw)
  {
    RolesRotate(i);
    var a, b, c, d := Role(i, 0), Role(i, 1), Role(i, 2), Role(i, 3);
    var e, f, g, h := Role(i, 4), Role(i, 5), Role(i, 6), Role(i, 7);
    S[h] := SumInPlace(S[h], S1(S[e]), Ch(S[e], S[f], S[g]), kw);
    S[d] := Add(S[d], S[h]);
    S[h] := Add(S[h], Add(S0(S[a]), Maj(S[a], S[b], S[c])));
  }

  ghost predicate Scheduled(w: seq<Word>, b: Block, n: nat) {
    n <= |w| && forall k :: 0 <= k < n ==> w[k] == Schedule(b, k)
  }

  /** be32dec_vect. */
  method DecodeBlock(W: array<Word>, block: Block)
    requires W.Length == 64
    modifies W
    ensures Scheduled(W[..], block, 16)
  {
    var i := 0;
    while i < 16
      invariant i <= 16 && Scheduled(W[..], block, i)
    {
      W[i] := Be32Dec(block[4 * i..4 * i + 4]) as Word;
      i := i + 1;
    }
  }

  lemma NextRound(s: State, k: seq<Word>, w: seq<Word>, t: nat)
    requires t < |k| && t < |w|
    ensures RoundInPlace(Rounds(s, w, k, t), Add(w[t], k[t])) == Rounds(s, w, k, t + 1)
  {
    RoundInPlaceIsRound(Rounds(s, w, k, t), k[t], w[t]);
  }

  /** One of sixteen rounds. */
  method MixOne(S: array<Word>, W: array<Word>, k: seq<Word>, i: nat, ii: nat, ghost w: seq<Word>, ghost s0: State)
    requires S.Length == 8 && W.Length == 64 && S != W && |k| == |w| == 64 && i < 16 && ii + i < 64
    requires W[ii + i] == w[ii + i] && Roles(S[..], i) == Rounds(s0, w, k, ii + i)
    modifies S
    ensures Roles(S[..], i + 1) == Rounds(s0, w, k, ii + i + 1)
  {
    NextRound(s0, k, w, ii + i);
    Rndr(S, i, Add(W[i + ii], k[i + ii]));
  }

  /** Sixteen rounds. */
  method Mix(S: array<Word>, W: array<Word>, k: seq<Word>, ii: nat, ghost w: seq<Word>, ghost s0: State)
    requires S.Length == 8 && W.Length == 64 && S != W && ii + 16 <= |k| == |w| == 64
    requires W[..ii + 16] == w[..ii + 16] && Roles(S[..], 0) == Rounds(s0, w, k, ii)
    modifies S
    ensures Roles(S[..], 0) == Rounds(s0, w, k, ii + 16)
  {
    var i := 0;
    while i < 16
      invariant i <= 16 && Roles(S[..], i) == Rounds(s0, w, k, ii + i)
    {
      assert W[i + ii] == W[..ii + 16][i + ii] == w[i + ii];
      MixOne(S, W, k, i, ii, w, s0);
      i := i + 1;
    }
    RolesFull(S[..]);
  }

  lemma RolesFull(s: seq<Word>)
    requires |s| == 8
    ensures Roles(s, 16) == Roles(s, 0) == Load(s)
  {
  }

  /** The next sixteen words of the schedule. */
  method Extend(W: array<Word>, ii: nat, ghost b: Block)
    requires W.Length == 64 && ii <= 32 && Scheduled(W[..], b, ii + 16)
    modifies W
    ensures Scheduled(W[..], b, ii + 32)
  {
    var i := 0;
    while i < 16
      invariant i <= 16 && Scheduled(W[..], b, ii + 16 + i)
    {
      var t := i + ii + 16;
      W[t] := NextInPlace(W[i + ii + 14], W[i + ii + 9], W[i + ii + 1], W[i + ii]);
      i := i + 1;
    }
  }

  function NextInPlace(w2: Word, w7: Word, w15: Word, w16: Word): (w: Word)
    ensures w == NextWord(w2, w7, w15, w16)
  {
    RotationForms(w2);
    RotationForms(w15);
    Add(Add(Add(LittleS1(w2), w7), LittleS0(w15)), w16)
  }

  /** Rounds and schedule in turn, sixteen at a time. */
  method MixAll(S: array<Word>, W: array<Word>, k: seq<Word>, ghost b: Block)
    requires S.Length == 8 && W.Length == 64 && S != W && |k| == 64 && Scheduled(W[..], b, 16)
    modifies S, W
    ensures Load(S[..]) == Rounds(Load(old(S[..])), WholeSchedule(b), k, |k|)
  {
    ghost var s0, w := Load(S[..]), WholeSchedule(b);
    RolesFull(S[..]);
    var i := 0;
    while i < 64
      invariant i in {0, 16, 32, 48}
      invariant Roles(S[..], 0) == Rounds(s0, w, k, i) && Scheduled(W[..], b, i + 16)
    {
      Mix(S, W, k, i, w, s0);
      if i == 48 { break; }
      Extend(W, i, b);
      i := i + 16;
    }
    RolesFull(S[..]);
  }

  method Transform(state: array<Word>, block: Block)
    requires state.Length == 8
    modifies state
    ensures Load(state[..]) == Compress(old(Load(state[..])), block)
  {
    var W, S := new Word[64], new Word[8];
    DecodeBlock(W, block);
    forall k | 0 <= k < 8 { S[k] := state[k]; }
    MixAll(S, W, K, block);
    AddState(state, S);
  }

  method AddState(state: array<Word>, S: array<Word>)
    requires state.Length == 8 && S.Length == 8 && state != S
    modifies state
    ensures Load(state[..]) == Plus(old(Load(state[..])), Load(S[..]))
  {
    var i := 0;
    while i < 8
      invariant i <= 8
      invariant forall k :: 0 <= k < i ==> state[k] == Add(old(state[k]), S[k])
      invariant forall k :: i <= k < 8 ==> state[k] == old(state[k])
    {
      state[i] := Add(state[i], S[i]);
      i := i + 1;
    }
  }

  // ---------- streaming ----------

  lemma BytesBuffered(n: nat)
    ensures 8 * n % TWO_64 / 8 % 64 == n % 64
  {
    var q := 8 * n / TWO_64;
    assert 8 * n % TWO_64 == 8 * (n - q * 0x2000_0000_0000_0000);
  }

  /** 0x80 and zeros. */
  function Pad(): (p: Block) { [0x80] + Zeros(63) }

  lemma PadPieces(m: seq<Byte>, r: nat)
    requires r == |m| % 64
    ensures r < 56 ==> m + Pad()[..56 - r] == m + [0x80] + Zeros(ZeroCount(|m|))
    ensures r >= 56 ==> m + Pad()[..64 - r] + Zeros(56) == m + [0x80] + Zeros(ZeroCount(|m|))
  {
    if r < 56 {
      assert Pad()[..56 - r] == [0x80] + Zeros(55 - r);
      assert ZeroCount(|m|) == 55 - r;
    } else {
      assert Pad()[..64 - r] == [0x80] + Zeros(63 - r);
      assert ZeroCount(|m|) == 119 - r;
      assert Zeros(63 - r) + Zeros(56) == Zeros(119 - r);
    }
  }

  method Store(state: array<Word>, s: State)
    requires state.Length == 8
    modifies state
    ensures Load(state[..]) == s
  {
    state[0], state[1], state[2], state[3] := s.a, s.b, s.c, s.d;
    state[4], state[5], state[6], state[7] := s.e, s.f, s.g, s.h;
  }

  /** State and buffer stand for a message. */
  ghost predicate Stands(state: seq<Word>, buf: seq<Byte>, m: seq<Byte>) {
    |state| == 8 && |buf| == 64 && Load(state) == Hash(m) && buf[..|m| % 64] == Tail(m)
  }

  lemma StandsAtFirst(state: seq<Word>, buf: seq<Byte>, m: seq<Byte>)
    requires |state| == 8 && |buf| == 64 && Load(state) == INITIAL && m == []
    ensures Stands(state, buf, m) && Counts(0, |m|)
  {
  }

  /** The number of bits, modulo 2 to the 64. */
  ghost predicate Counts(count: nat, bytes: nat) { count == 8 * bytes % TWO_64 }

  /** SHA256_CTX: the chaining value, the number of bits so far modulo 2 to the 64, and the bytes of an unfinished
      block; the message is all that has been hashed. */
  class Context {
    const state: array<Word>
    const buf: array<Byte>
    var count: nat
    ghost var message: seq<Byte>

    ghost predicate Shape() { state.Length == 8 && buf.Length == 64 }

    ghost predicate Holds(m: seq<Byte>)
      reads state, buf
    {
      Shape() && Stands(state[..], buf[..], m)
    }

    ghost predicate Valid()
      reads this, state, buf
    {
      Holds(message) && Counts(count, |message|)
    }

    /** SHA256_Init. */
    constructor ()
      ensures Valid() && message == [] && fresh(state) && fresh(buf)
    {
      state := new Word[8];
      buf := new Byte[64];
      count, message := 0, [];
      new;
      Store(state, INITIAL);
      StandsAtFirst(state[..], buf[..], message);
    }

    /** memcpy into the buffer. */
    method Copy(p: nat, data: seq<Byte>)
      requires Shape() && p + |data| <= 64
      modifies buf
      ensures buf[..] == old(buf[..p]) + data + old(buf[p + |data|..])
    {
      forall k | 0 <= k < |data| { buf[p + k] := data[k]; }
    }

    /** The data fit into the buffer without completing a block. */
    method Keep(r: nat, data: seq<Byte>, ghost m: seq<Byte>)
      requires Holds(m) && r == |m| % 64 && r + |data| < 64
      modifies buf
      ensures Holds(m + data)
    {
      Buffered(Compress, INITIAL, m, data);
      Copy(r, data);
    }

    /** The data complete the block in the buffer, which is then compressed. */
    method Complete(r: nat, data: seq<Byte>, ghost m: seq<Byte>)
      requires Holds(m) && r == |m| % 64 && r + |data| == 64
      modifies buf, state
      ensures Holds(m + data) && |m + data| % 64 == 0
    {
      Filled(Compress, INITIAL, m, data);
      Copy(r, data);
      assert buf[..] == Tail(m) + data;
      Transform(state, buf[..]);
    }

    /** A whole block is compressed where it is. */
    method Direct(data: Block, ghost m: seq<Byte>)
      requires Holds(m) && |m| % 64 == 0
      modifies state
      ensures Holds(m + data) && |m + data| % 64 == 0
    {
      Filled(Compress, INITIAL, m, data);
      assert Tail(m) + data == data;
      Transform(state, data);
    }

    /** SHA256_Update: counts the bits and takes in the data. */
    method Update(data: seq<Byte>)
      requires Valid()
      modifies this, state, buf
      ensures Valid() && message == old(message) + data
    {
      BytesBuffered(|message|);
      CountAdd(|message|, |data|);
      var r := count / 8 % 64;
      var bitlen := 8 * |data| % TWO_64;
      count := (count + bitlen) % TWO_64;
      Take(r, data, message);
      message := message + data;
    }

    /** Completes the block in the buffer if the data reach that far. */
    method Take(r: nat, data: seq<Byte>, ghost m: seq<Byte>)
      requires Holds(m) && r == |m| % 64
      modifies state, buf
      ensures Holds(m + data)
    {
      if |data| < 64 - r {
        Keep(r, data, m);
        return;
      }
      Rejoin(m, data, 64 - r);
      Complete(r, data[..64 - r], m);
      TakeBlocks(data[64 - r..], m + data[..64 - r]);
    }

    /** Compresses the whole blocks and keeps the rest. */
    method TakeBlocks(data: seq<Byte>, ghost m: seq<Byte>)
      requires Holds(m) && |m| % 64 == 0
      modifies state, buf
      ensures Holds(m + data)
    {
      ghost var done := m;
      var src := data;
      while |src| >= 64
        invariant Holds(done) && |done| % 64 == 0 && done + src == m + data
      {
        Direct(src[..64], done);
        Rejoin(done, src, 64);
        done, src := done + src[..64], src[64..];
      }
      Keep(0, src, done);
    }

    /** SHA256_Pad. */
    method AddPadding()
      requires Valid()
      modifies state, buf
      ensures Shape() && Load(state[..]) == Hash(Padded(message, Be64Enc(count)))
    {
      BytesBuffered(|message|);
      var r := count / 8 % 64;
      PadPieces(message, r);
      if r < 56 {
        Keep(r, Pad()[..56 - r], message);
        Complete(56, Be64Enc(count), message + Pad()[..56 - r]);
      } else {
        Complete(r, Pad()[..64 - r], message);
        Keep(0, Zeros(56), message + Pad()[..64 - r]);
        Complete(56, Be64Enc(count), message + Pad()[..64 - r] + Zeros(56));
      }
    }

    /** SHA256_Final: the digest of the message, and a cleared context. */
    method Final(digest: array<Byte>)
      requires Valid() && digest.Length == 32 && digest != buf
      modifies this, state, buf, digest
      ensures digest[..] == Digest(old(message))
      ensures count == 0 && state[..] == seq(8, _ => 0) && buf[..] == Zeros(64)
    {
      AddPadding();
      EncodeVector(digest, state);
      WordsOfLoad(state[..]);
      Clear();
    }

    /** memset of the whole context. */
    method Clear()
      requires Shape()
      modifies this, state, buf
      ensures count == 0 && state[..] == seq(8, _ => 0) && buf[..] == Zeros(64)
    {
      forall k | 0 <= k < 8 { state[k] := 0; }
      forall k | 0 <= k < 64 { buf[k] := 0; }
      count := 0;
    }
  }

  lemma CountAdd(m: nat, n: nat)
    ensures (8 * m % TWO_64 + 8 * n % TWO_64) % TWO_64 == 8 * (m + n) % TWO_64
  {
    var p, q := 8 * m / TWO_64, 8 * n / TWO_64;
    assert 8 * (m + n) == (p + q) * TWO_64 + (8 * m % TWO_64 + 8 * n % TWO_64);
  }

  /** be32enc_vect. */
  method EncodeVector(dst: array<Byte>, src: array<Word>)
    requires dst.Length == 4 * src.Length
    modifies dst
    ensures dst[..] == Encode(src[..])
  {
    var i := 0;
    while i < src.Length
      invariant i <= src.Length && dst[..4 * i] == Encode(src[..i])
    {
      var p := Be32Enc(src[i] as nat);
      assert src[..i + 1][..i] == src[..i];
      ghost var before := dst[..4 * i];
      dst[4 * i], dst[4 * i + 1], dst[4 * i + 2], dst[4 * i + 3] := p[0], p[1], p[2], p[3];
      assert dst[..4 * i + 4] == before + p;
      i := i + 1;
    }
    assert dst[..] == dst[..4 * i] && src[..] == src[..i];
  }

  /** sha256_hash: however the input arrives, the digest is that of the whole. */
  method HashChunks(chunks: seq<seq<Byte>>) returns (digest: array<Byte>)
    ensures digest[..] == Digest(Concat(chunks))
  {
    var ctx := new Context();
    var i := 0;
    while i < |chunks|
      invariant i <= |chunks| && ctx.Valid() && ctx.message == Concat(chunks[..i])
      invariant fresh(ctx) && fresh(ctx.state) && fresh(ctx.buf)
    {
      ctx.Update(chunks[i]);
      assert chunks[..i + 1][..i] == chunks[..i];
      i := i + 1;
    }
    assert chunks[..i] == chunks;
    digest := new Byte[32];
    ctx.Final(digest);
  }
}

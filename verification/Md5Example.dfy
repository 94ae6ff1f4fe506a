/** The example of RFC 1321, appendix A.5: the digest of "abc", computed from the definitions. */
module Md5Example {
  import opened Blocks
  import opened Md5

  const ABC: seq<Byte> := [0x61, 0x62, 0x63]

  /** One block: the message, the end marker, zeros, and the length in bits. */
  function AbcBlock(): (b: Block) { Padded(ABC, LengthBytes(24)) }

  lemma BlockBytes()
    ensures var b := AbcBlock();
      && b[..4] == [0x61, 0x62, 0x63, 0x80] && b[56..60] == [24, 0, 0, 0]
      && forall i :: 4 <= i < 64 && i != 56 ==> b[i] == 0
  {
    assert LengthBytes(24) == [24] + Zeros(7);
    assert AbcBlock()[56..60] == [24, 0, 0, 0];
  }

  function AbcWord(k: nat): Word { if k == 0 then 0x80636261 else if k == 14 then 0x18 else 0 }

  lemma Values()
    ensures Le32Dec([0x61, 0x62, 0x63, 0x80]) == 0x80636261
    ensures Le32Dec([24, 0, 0, 0]) == 24 && Le32Dec([0, 0, 0, 0]) == 0
  {
  }

  lemma WordBytes(b: Block, k: nat)
    requires k < 16
    ensures BlockWords(b)[k] == Le32Dec(b[4 * k..4 * k + 4]) as Word
  {
  }

  lemma AbcBytes(k: nat)
    requires k < 16
    ensures AbcBlock()[4 * k..4 * k + 4] ==
      if k == 0 then [0x61, 0x62, 0x63, 0x80] else if k == 14 then [24, 0, 0, 0] else [0, 0, 0, 0]
  {
    BlockBytes();
  }

  lemma WordIs(b: Block, k: nat, w: Word)
    requires k < 16 && Le32Dec(b[4 * k..4 * k + 4]) == w as nat
    ensures BlockWords(b)[k] == w
  {
    WordBytes(b, k);
  }

  lemma AbcWords(k: nat)
    requires k < 16
    ensures BlockWords(AbcBlock())[k] == AbcWord(k)
  {
    AbcBytes(k);
    Values();
    WordIs(AbcBlock(), k, AbcWord(k));
  }

  ghost predicate Abc(x: seq<Word>)
    requires |x| == 16
  {
    forall k :: 0 <= k < 16 ==> x[k] == AbcWord(k)
  }

  // ---------- the table ----------

  ghost predicate Lines0(l: seq<Line>)
    requires |l| == 64
  {
    && l[0] == Line(0, 0xd76aa478, 7) && l[1] == Line(1, 0xe8c7b756, 12)
    && l[2] == Line(2, 0x242070db, 17) && l[3] == Line(3, 0xc1bdceee, 22)
    && l[4] == Line(4, 0xf57c0faf, 7) && l[5] == Line(5, 0x4787c62a, 12)
    && l[6] == Line(6, 0xa8304613, 17) && l[7] == Line(7, 0xfd469501, 22)
  }

  ghost predicate Lines1(l: seq<Line>)
    requires |l| == 64
  {
    && l[8] == Line(8, 0x698098d8, 7) && l[9] == Line(9, 0x8b44f7af, 12)
    && l[10] == Line(10, 0xffff5bb1, 17) && l[11] == Line(11, 0x895cd7be, 22)
    && l[12] == Line(12, 0x6b901122, 7) && l[13] == Line(13, 0xfd987193, 12)
    && l[14] == Line(14, 0xa679438e, 17) && l[15] == Line(15, 0x49b40821, 22)
  }

  ghost predicate Lines2(l: seq<Line>)
    requires |l| == 64
  {
    && l[16] == Line(1, 0xf61e2562, 5) && l[17] == Line(6, 0xc040b340, 9)
    && l[18] == Line(11, 0x265e5a51, 14) && l[19] == Line(0, 0xe9b6c7aa, 20)
    && l[20] == Line(5, 0xd62f105d, 5) && l[21] == Line(10, 0x02441453, 9)
    && l[22] == Line(15, 0xd8a1e681, 14) && l[23] == Line(4, 0xe7d3fbc8, 20)
  }

  ghost predicate Lines3(l: seq<Line>)
    requires |l| == 64
  {
    && l[24] == Line(9, 0x21e1cde6, 5) && l[25] == Line(14, 0xc33707d6, 9)
    && l[26] == Line(3, 0xf4d50d87, 14) && l[27] == Line(8, 0x455a14ed, 20)
    && l[28] == Line(13, 0xa9e3e905, 5) && l[29] == Line(2, 0xfcefa3f8, 9)
    && l[30] == Line(7, 0x676f02d9, 14) && l[31] == Line(12, 0x8d2a4c8a, 20)
  }

  ghost predicate Lines4(l: seq<Line>)
    requires |l| == 64
  {
    && l[32] == Line(5, 0xfffa3942, 4) && l[33] == Line(8, 0x8771f681, 11)
    && l[34] == Line(11, 0x6d9d6122, 16) && l[35] == Line(14, 0xfde5380c, 23)
    && l[36] == Line(1, 0xa4beea44, 4) && l[37] == Line(4, 0x4bdecfa9, 11)
    && l[38] == Line(7, 0xf6bb4b60, 16) && l[39] == Line(10, 0xbebfbc70, 23)
  }

  ghost predicate Lines5(l: seq<Line>)
    requires |l| == 64
  {
    && l[40] == Line(13, 0x289b7ec6, 4) && l[41] == Line(0, 0xeaa127fa, 11)
    && l[42] == Line(3, 0xd4ef3085, 16) && l[43] == Line(6, 0x04881d05, 23)
    && l[44] == Line(9, 0xd9d4d039, 4) && l[45] == Line(12, 0xe6db99e5, 11)
    && l[46] == Line(15, 0x1fa27cf8, 16) && l[47] == Line(2, 0xc4ac5665, 23)
  }

  ghost predicate Lines6(l: seq<Line>)
    requires |l| == 64
  {
    && l[48] == Line(0, 0xf4292244, 6) && l[49] == Line(7, 0x432aff97, 10)
    && l[50] == Line(14, 0xab9423a7, 15) && l[51] == Line(5, 0xfc93a039, 21)
    && l[52] == Line(12, 0x655b59c3, 6) && l[53] == Line(3, 0x8f0ccc92, 10)
    && l[54] == Line(10, 0xffeff47d, 15) && l[55] == Line(1, 0x85845dd1, 21)
  }

  ghost predicate Lines7(l: seq<Line>)
    requires |l| == 64
  {
    && l[56] == Line(8, 0x6fa87e4f, 6) && l[57] == Line(15, 0xfe2ce6e0, 10)
    && l[58] == Line(6, 0xa3014314, 15) && l[59] == Line(13, 0x4e0811a1, 21)
    && l[60] == Line(4, 0xf7537e82, 6) && l[61] == Line(11, 0xbd3af235, 10)
    && l[62] == Line(2, 0x2ad7d2bb, 15) && l[63] == Line(9, 0xeb86d391, 21)
  }

  lemma TableLines0()
    ensures Lines0(Lines())
  {
  }

  lemma TableLines1()
    ensures Lines1(Lines())
  {
  }

  lemma TableLines2()
    ensures Lines2(Lines())
  {
  }

  lemma TableLines3()
    ensures Lines3(Lines())
  {
  }

  lemma TableLines4()
    ensures Lines4(Lines())
  {
  }

  lemma TableLines5()
    ensures Lines5(Lines())
  {
  }

  lemma TableLines6()
    ensures Lines6(Lines())
  {
  }

  lemma TableLines7()
    ensures Lines7(Lines())
  {
  }

  // ---------- the operations ----------

  lemma Operations0(x: seq<Word>, l: seq<Line>)
    requires |x| == 16 && |l| == 64 && AllUsable(l) && Abc(x) && Lines0(l)
    ensures Operations(INITIAL, x, l, 4) == Regs(0xd6d117b4, 0x7ad956f2, 0x2f6fbd72, 0x344a8432)
  {
    assert Operations(INITIAL, x, l, 1) == Regs(0x10325476, 0xd6d117b4, 0xefcdab89, 0x98badcfe);
    assert Operations(INITIAL, x, l, 2) == Regs(0x98badcfe, 0x344a8432, 0xd6d117b4, 0xefcdab89);
    assert Operations(INITIAL, x, l, 3) == Regs(0xefcdab89, 0x2f6fbd72, 0x344a8432, 0xd6d117b4);
  }

  lemma Operations1(x: seq<Word>, l: seq<Line>)
    requires |x| == 16 && |l| == 64 && AllUsable(l) && Abc(x) && Lines0(l)
    requires Operations(INITIAL, x, l, 4) == Regs(0xd6d117b4, 0x7ad956f2, 0x2f6fbd72, 0x344a8432)
    ensures Operations(INITIAL, x, l, 8) == Regs(0xc73741ef, 0x928d99f6, 0x207dc67b, 0x8bac3051)
  {
    assert Operations(INITIAL, x, l, 5) == Regs(0x344a8432, 0xc73741ef, 0x7ad956f2, 0x2f6fbd72);
    assert Operations(INITIAL, x, l, 6) == Regs(0x2f6fbd72, 0x8bac3051, 0xc73741ef, 0x7ad956f2);
    assert Operations(INITIAL, x, l, 7) == Regs(0x7ad956f2, 0x207dc67b, 0x8bac3051, 0xc73741ef);
  }

  lemma Operations2(x: seq<Word>, l: seq<Line>)
    requires |x| == 16 && |l| == 64 && AllUsable(l) && Abc(x) && Lines1(l)
    requires Operations(INITIAL, x, l, 8) == Regs(0xc73741ef, 0x928d99f6, 0x207dc67b, 0x8bac3051)
    ensures Operations(INITIAL, x, l, 12) == Regs(0x854b3712, 0x5ed49596, 0x3020401c, 0x74e2f284)
  {
    assert Operations(INITIAL, x, l, 9) == Regs(0x8bac3051, 0x854b3712, 0x928d99f6, 0x207dc67b);
    assert Operations(INITIAL, x, l, 10) == Regs(0x207dc67b, 0x74e2f284, 0x854b3712, 0x928d99f6);
    assert Operations(INITIAL, x, l, 11) == Regs(0x928d99f6, 0x3020401c, 0x74e2f284, 0x854b3712);
  }

  lemma Operations3(x: seq<Word>, l: seq<Line>)
    requires |x| == 16 && |l| == 64 && AllUsable(l) && Abc(x) && Lines1(l)
    requires Operations(INITIAL, x, l, 12) == Regs(0x854b3712, 0x5ed49596, 0x3020401c, 0x74e2f284)
    ensures Operations(INITIAL, x, l, 16) == Regs(0xdda9b9a6, 0x72aff2e0, 0xe396856b, 0xa1051895)
  {
    assert Operations(INITIAL, x, l, 13) == Regs(0x74e2f284, 0xdda9b9a6, 0x5ed49596, 0x3020401c);
    assert Operations(INITIAL, x, l, 14) == Regs(0x3020401c, 0xa1051895, 0xdda9b9a6, 0x5ed49596);
    assert Operations(INITIAL, x, l, 15) == Regs(0x5ed49596, 0xe396856b, 0xa1051895, 0xdda9b9a6);
  }

  lemma Operations4(x: seq<Word>, l: seq<Line>)
    requires |x| == 16 && |l| == 64 && AllUsable(l) && Abc(x) && Lines2(l)
    requires Operations(INITIAL, x, l, 16) == Regs(0xdda9b9a6, 0x72aff2e0, 0xe396856b, 0xa1051895)
    ensures Operations(INITIAL, x, l, 20) == Regs(0x3e9e9126, 0xb5b204e4, 0xe25e1652, 0x4a1d804e)
  {
    assert Operations(INITIAL, x, l, 17) == Regs(0xa1051895, 0x3e9e9126, 0x72aff2e0, 0xe396856b);
    assert Operations(INITIAL, x, l, 18) == Regs(0xe396856b, 0x4a1d804e, 0x3e9e9126, 0x72aff2e0);
    assert Operations(INITIAL, x, l, 19) == Regs(0x72aff2e0, 0xe25e1652, 0x4a1d804e, 0x3e9e9126);
  }

  lemma Operations5(x: seq<Word>, l: seq<Line>)
    requires |x| == 16 && |l| == 64 && AllUsable(l) && Abc(x) && Lines2(l)
    requires Operations(INITIAL, x, l, 20) == Regs(0x3e9e9126, 0xb5b204e4, 0xe25e1652, 0x4a1d804e)
    ensures Operations(INITIAL, x, l, 24) == Regs(0x59a8ffda, 0x47092c07, 0xabfc7920, 0x6d002f1e)
  {
    assert Operations(INITIAL, x, l, 21) == Regs(0x4a1d804e, 0x59a8ffda, 0xb5b204e4, 0xe25e1652);
    assert Operations(INITIAL, x, l, 22) == Regs(0xe25e1652, 0x6d002f1e, 0x59a8ffda, 0xb5b204e4);
    assert Operations(INITIAL, x, l, 23) == Regs(0xb5b204e4, 0xabfc7920, 0x6d002f1e, 0x59a8ffda);
  }

  lemma Operations6(x: seq<Word>, l: seq<Line>)
    requires |x| == 16 && |l| == 64 && AllUsable(l) && Abc(x) && Lines3(l)
    requires Operations(INITIAL, x, l, 24) == Regs(0x59a8ffda, 0x47092c07, 0xabfc7920, 0x6d002f1e)
    ensures Operations(INITIAL, x, l, 28) == Regs(0xb7f268cf, 0x786acb8f, 0xfe1623b1, 0x09388eff)
  {
    assert Operations(INITIAL, x, l, 25) == Regs(0x6d002f1e, 0xb7f268cf, 0x47092c07, 0xabfc7920);
    assert Operations(INITIAL, x, l, 26) == Regs(0xabfc7920, 0x09388eff, 0xb7f268cf, 0x47092c07);
    assert Operations(INITIAL, x, l, 27) == Regs(0x47092c07, 0xfe1623b1, 0x09388eff, 0xb7f268cf);
  }

  lemma Operations7(x: seq<Word>, l: seq<Line>)
    requires |x| == 16 && |l| == 64 && AllUsable(l) && Abc(x) && Lines3(l)
    requires Operations(INITIAL, x, l, 28) == Regs(0xb7f268cf, 0x786acb8f, 0xfe1623b1, 0x09388eff)
    ensures Operations(INITIAL, x, l, 32) == Regs(0x790a77fb, 0x726342d3, 0xa62884aa, 0x9f47e4f8)
  {
    assert Operations(INITIAL, x, l, 29) == Regs(0x09388eff, 0x790a77fb, 0x786acb8f, 0xfe1623b1);
    assert Operations(INITIAL, x, l, 30) == Regs(0xfe1623b1, 0x9f47e4f8, 0x790a77fb, 0x786acb8f);
    assert Operations(INITIAL, x, l, 31) == Regs(0x786acb8f, 0xa62884aa, 0x9f47e4f8, 0x790a77fb);
  }

  lemma Operations8(x: seq<Word>, l: seq<Line>)
    requires |x| == 16 && |l| == 64 && AllUsable(l) && Abc(x) && Lines4(l)
    requires Operations(INITIAL, x, l, 32) == Regs(0x790a77fb, 0x726342d3, 0xa62884aa, 0x9f47e4f8)
    ensures Operations(INITIAL, x, l, 36) == Regs(0xb3707ebf, 0x3b0875c7, 0x8d212ff5, 0x60127b2e)
  {
    assert x[5] == 0x00000000 && x[8] == 0x00000000 && x[11] == 0x00000000 && x[14] == 0x00000018;
    assert Operations(INITIAL, x, l, 33) == Regs(0x9f47e4f8, 0xb3707ebf, 0x726342d3, 0xa62884aa);
    assert Operations(INITIAL, x, l, 34) == Regs(0xa62884aa, 0x60127b2e, 0xb3707ebf, 0x726342d3);
    assert Operations(INITIAL, x, l, 35) == Regs(0x726342d3, 0x8d212ff5, 0x60127b2e, 0xb3707ebf);
  }

  lemma Operations9(x: seq<Word>, l: seq<Line>)
    requires |x| == 16 && |l| == 64 && AllUsable(l) && Abc(x) && Lines4(l)
    requires Operations(INITIAL, x, l, 36) == Regs(0xb3707ebf, 0x3b0875c7, 0x8d212ff5, 0x60127b2e)
    ensures Operations(INITIAL, x, l, 40) == Regs(0x21b117b9, 0x5a2f5ea5, 0x3575227e, 0x6e7429d5)
  {
    assert x[1] == 0x00000000 && x[4] == 0x00000000 && x[7] == 0x00000000 && x[10] == 0x00000000;
    assert Operations(INITIAL, x, l, 37) == Regs(0x60127b2e, 0x21b117b9, 0x3b0875c7, 0x8d212ff5);
    assert Operations(INITIAL, x, l, 38) == Regs(0x8d212ff5, 0x6e7429d5, 0x21b117b9, 0x3b0875c7);
    assert Operations(INITIAL, x, l, 39) == Regs(0x3b0875c7, 0x3575227e, 0x6e7429d5, 0x21b117b9);
  }

  lemma Operations10(x: seq<Word>, l: seq<Line>)
    requires |x| == 16 && |l| == 64 && AllUsable(l) && Abc(x) && Lines5(l)
    requires Operations(INITIAL, x, l, 40) == Regs(0x21b117b9, 0x5a2f5ea5, 0x3575227e, 0x6e7429d5)
    ensures Operations(INITIAL, x, l, 44) == Regs(0x11de1779, 0x4c6124f4, 0x31c465ca, 0xfadcaa38)
  {
    assert x[13] == 0x00000000 && x[0] == 0x80636261 && x[3] == 0x00000000 && x[6] == 0x00000000;
    assert Operations(INITIAL, x, l, 41) == Regs(0x6e7429d5, 0x11de1779, 0x5a2f5ea5, 0x3575227e);
    assert Operations(INITIAL, x, l, 42) == Regs(0x3575227e, 0xfadcaa38, 0x11de1779, 0x5a2f5ea5);
    assert Operations(INITIAL, x, l, 43) == Regs(0x5a2f5ea5, 0x31c465ca, 0xfadcaa38, 0x11de1779);
  }

  lemma Operations11(x: seq<Word>, l: seq<Line>)
    requires |x| == 16 && |l| == 64 && AllUsable(l) && Abc(x) && Lines5(l)
    requires Operations(INITIAL, x, l, 44) == Regs(0x11de1779, 0x4c6124f4, 0x31c465ca, 0xfadcaa38)
    ensures Operations(INITIAL, x, l, 48) == Regs(0x7f2e507b, 0x7beb9700, 0x8fae6399, 0x99d9679d)
  {
    assert x[9] == 0x00000000 && x[12] == 0x00000000 && x[15] == 0x00000000 && x[2] == 0x00000000;
    assert Operations(INITIAL, x, l, 45) == Regs(0xfadcaa38, 0x7f2e507b, 0x4c6124f4, 0x31c465ca);
    assert Operations(INITIAL, x, l, 46) == Regs(0x31c465ca, 0x99d9679d, 0x7f2e507b, 0x4c6124f4);
    assert Operations(INITIAL, x, l, 47) == Regs(0x4c6124f4, 0x8fae6399, 0x99d9679d, 0x7f2e507b);
  }

  lemma Operations12(x: seq<Word>, l: seq<Line>)
    requires |x| == 16 && |l| == 64 && AllUsable(l) && Abc(x) && Lines6(l)
    requires Operations(INITIAL, x, l, 48) == Regs(0x7f2e507b, 0x7beb9700, 0x8fae6399, 0x99d9679d)
    ensures Operations(INITIAL, x, l, 52) == Regs(0x7b201df8, 0x8bf025c4, 0xb298cefd, 0xf4e8e96e)
  {
    assert x[0] == 0x80636261 && x[7] == 0x00000000 && x[14] == 0x00000018 && x[5] == 0x00000000;
    assert Operations(INITIAL, x, l, 49) == Regs(0x99d9679d, 0x7b201df8, 0x7beb9700, 0x8fae6399);
    assert Operations(INITIAL, x, l, 50) == Regs(0x8fae6399, 0xf4e8e96e, 0x7b201df8, 0x7beb9700);
    assert Operations(INITIAL, x, l, 51) == Regs(0x7beb9700, 0xb298cefd, 0xf4e8e96e, 0x7b201df8);
  }

  lemma Operations13(x: seq<Word>, l: seq<Line>)
    requires |x| == 16 && |l| == 64 && AllUsable(l) && Abc(x) && Lines6(l)
    requires Operations(INITIAL, x, l, 52) == Regs(0x7b201df8, 0x8bf025c4, 0xb298cefd, 0xf4e8e96e)
    ensures Operations(INITIAL, x, l, 56) == Regs(0x06cc5e8a, 0x3bfa2c27, 0x7d632dd0, 0x5b0d97aa)
  {
    assert x[12] == 0x00000000 && x[3] == 0x00000000 && x[10] == 0x00000000 && x[1] == 0x00000000;
    assert Operations(INITIAL, x, l, 53) == Regs(0xf4e8e96e, 0x06cc5e8a, 0x8bf025c4, 0xb298cefd);
    assert Operations(INITIAL, x, l, 54) == Regs(0xb298cefd, 0x5b0d97aa, 0x06cc5e8a, 0x8bf025c4);
    assert Operations(INITIAL, x, l, 55) == Regs(0x8bf025c4, 0x7d632dd0, 0x5b0d97aa, 0x06cc5e8a);
  }

  lemma Operations14(x: seq<Word>, l: seq<Line>)
    requires |x| == 16 && |l| == 64 && AllUsable(l) && Abc(x) && Lines7(l)
    requires Operations(INITIAL, x, l, 56) == Regs(0x06cc5e8a, 0x3bfa2c27, 0x7d632dd0, 0x5b0d97aa)
    ensures Operations(INITIAL, x, l, 60) == Regs(0x7f81cc35, 0x7327d604, 0x4f9dbe3f, 0x094454ab)
  {
    assert x[8] == 0x00000000 && x[15] == 0x00000000 && x[6] == 0x00000000 && x[13] == 0x00000000;
    assert Operations(INITIAL, x, l, 57) == Regs(0x5b0d97aa, 0x7f81cc35, 0x3bfa2c27, 0x7d632dd0);
    assert Operations(INITIAL, x, l, 58) == Regs(0x7d632dd0, 0x094454ab, 0x7f81cc35, 0x3bfa2c27);
    assert Operations(INITIAL, x, l, 59) == Regs(0x3bfa2c27, 0x4f9dbe3f, 0x094454ab, 0x7f81cc35);
  }

  lemma Operations15(x: seq<Word>, l: seq<Line>)
    requires |x| == 16 && |l| == 64 && AllUsable(l) && Abc(x) && Lines7(l)
    requires Operations(INITIAL, x, l, 60) == Regs(0x7f81cc35, 0x7327d604, 0x4f9dbe3f, 0x094454ab)
    ensures Operations(INITIAL, x, l, 64) == Regs(0x310ade8f, 0xc08226b3, 0xe484b9d8, 0x624d8cb2)
  {
    assert x[4] == 0x00000000 && x[11] == 0x00000000 && x[2] == 0x00000000 && x[9] == 0x00000000;
    assert Operations(INITIAL, x, l, 61) == Regs(0x094454ab, 0x310ade8f, 0x7327d604, 0x4f9dbe3f);
    assert Operations(INITIAL, x, l, 62) == Regs(0x4f9dbe3f, 0x624d8cb2, 0x310ade8f, 0x7327d604);
    assert Operations(INITIAL, x, l, 63) == Regs(0x7327d604, 0xe484b9d8, 0x624d8cb2, 0x310ade8f);
  }

  lemma AllOperations(x: seq<Word>, l: seq<Line>)
    requires |x| == 16 && |l| == 64 && AllUsable(l) && Abc(x)
    requires Lines0(l) && Lines1(l) && Lines2(l) && Lines3(l) && Lines4(l) && Lines5(l) && Lines6(l) && Lines7(l)
    ensures Operations(INITIAL, x, l, 64) == Regs(0x310ade8f, 0xc08226b3, 0xe484b9d8, 0x624d8cb2)
  {
    Operations0(x, l);
    Operations1(x, l);
    Operations2(x, l);
    Operations3(x, l);
    Operations4(x, l);
    Operations5(x, l);
    Operations6(x, l);
    Operations7(x, l);
    Operations8(x, l);
    Operations9(x, l);
    Operations10(x, l);
    Operations11(x, l);
    Operations12(x, l);
    Operations13(x, l);
    Operations14(x, l);
    Operations15(x, l);
  }

  lemma AbcHash()
    ensures Hash(AbcBlock()) == Regs(0x98500190, 0xb04fd23c, 0x7d3f96d6, 0x727fe128)
  {
    var b := AbcBlock();
    LinesUsable();
    forall k: nat | k < 16 ensures BlockWords(b)[k] == AbcWord(k) { AbcWords(k); }
    TableLines0();
    TableLines1();
    TableLines2();
    TableLines3();
    TableLines4();
    TableLines5();
    TableLines6();
    TableLines7();
    AllOperations(BlockWords(b), Lines());
    assert b[..64] == b && b[64..] == [];
  }

  /** The digest of the example, its words as the bytes of the standard read low-order byte first. */
  lemma AbcDigest()
    ensures Digest(ABC) == Encode(Regs(0x98500190, 0xb04fd23c, 0x7d3f96d6, 0x727fe128))
  {
    AbcHash();
    assert 8 * |ABC| == 24;
  }
}

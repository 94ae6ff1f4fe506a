/** The worked example of FIPS 180-2, appendix B.1: the digest of "abc", computed from the definitions. */
module Sha256Example {
  import opened Blocks
  import opened Sha256

  const ABC: seq<Byte> := [0x61, 0x62, 0x63]

  /** One block: the message, the end marker, zeros, and the length in bits. */
  function AbcBlock(): (b: Block) { Padded(ABC, Be64Enc(24)) }

  lemma BlockBytes()
    ensures var b := AbcBlock();
      b[..4] == [0x61, 0x62, 0x63, 0x80] && b[60..] == [0, 0, 0, 24] && forall i :: 4 <= i < 60 ==> b[i] == 0
  {
    assert Be64Enc(24) == Zeros(7) + [24];
    assert AbcBlock()[60..] == [0, 0, 0, 24];
  }

  // ---------- the tables ----------

  ghost predicate Constants0(k: seq<Word>)
    requires |k| == 64
  {
    && k[0] == 0x428a2f98 && k[1] == 0x71374491 && k[2] == 0xb5c0fbcf && k[3] == 0xe9b5dba5
    && k[4] == 0x3956c25b && k[5] == 0x59f111f1 && k[6] == 0x923f82a4 && k[7] == 0xab1c5ed5
  }

  ghost predicate Constants1(k: seq<Word>)
    requires |k| == 64
  {
    && k[8] == 0xd807aa98 && k[9] == 0x12835b01 && k[10] == 0x243185be && k[11] == 0x550c7dc3
    && k[12] == 0x72be5d74 && k[13] == 0x80deb1fe && k[14] == 0x9bdc06a7 && k[15] == 0xc19bf174
  }

  ghost predicate Constants2(k: seq<Word>)
    requires |k| == 64
  {
    && k[16] == 0xe49b69c1 && k[17] == 0xefbe4786 && k[18] == 0x0fc19dc6 && k[19] == 0x240ca1cc
    && k[20] == 0x2de92c6f && k[21] == 0x4a7484aa && k[22] == 0x5cb0a9dc && k[23] == 0x76f988da
  }

  ghost predicate Constants3(k: seq<Word>)
    requires |k| == 64
  {
    && k[24] == 0x983e5152 && k[25] == 0xa831c66d && k[26] == 0xb00327c8 && k[27] == 0xbf597fc7
    && k[28] == 0xc6e00bf3 && k[29] == 0xd5a79147 && k[30] == 0x06ca6351 && k[31] == 0x14292967
  }

  ghost predicate Constants4(k: seq<Word>)
    requires |k| == 64
  {
    && k[32] == 0x27b70a85 && k[33] == 0x2e1b2138 && k[34] == 0x4d2c6dfc && k[35] == 0x53380d13
    && k[36] == 0x650a7354 && k[37] == 0x766a0abb && k[38] == 0x81c2c92e && k[39] == 0x92722c85
  }

  ghost predicate Constants5(k: seq<Word>)
    requires |k| == 64
  {
    && k[40] == 0xa2bfe8a1 && k[41] == 0xa81a664b && k[42] == 0xc24b8b70 && k[43] == 0xc76c51a3
    && k[44] == 0xd192e819 && k[45] == 0xd6990624 && k[46] == 0xf40e3585 && k[47] == 0x106aa070
  }

  ghost predicate Constants6(k: seq<Word>)
    requires |k| == 64
  {
    && k[48] == 0x19a4c116 && k[49] == 0x1e376c08 && k[50] == 0x2748774c && k[51] == 0x34b0bcb5
    && k[52] == 0x391c0cb3 && k[53] == 0x4ed8aa4a && k[54] == 0x5b9cca4f && k[55] == 0x682e6ff3
  }

  ghost predicate Constants7(k: seq<Word>)
    requires |k| == 64
  {
    && k[56] == 0x748f82ee && k[57] == 0x78a5636f && k[58] == 0x84c87814 && k[59] == 0x8cc70208
    && k[60] == 0x90befffa && k[61] == 0xa4506ceb && k[62] == 0xbef9a3f7 && k[63] == 0xc67178f2
  }

  ghost predicate Words0(w: seq<Word>)
    requires |w| == 64
  {
    && w[0] == 0x61626380 && w[1] == 0x00000000 && w[2] == 0x00000000 && w[3] == 0x00000000
    && w[4] == 0x00000000 && w[5] == 0x00000000 && w[6] == 0x00000000 && w[7] == 0x00000000
  }

  ghost predicate Words1(w: seq<Word>)
    requires |w| == 64
  {
    && w[8] == 0x00000000 && w[9] == 0x00000000 && w[10] == 0x00000000 && w[11] == 0x00000000
    && w[12] == 0x00000000 && w[13] == 0x00000000 && w[14] == 0x00000000 && w[15] == 0x00000018
  }

  ghost predicate Words2(w: seq<Word>)
    requires |w| == 64
  {
    && w[16] == 0x61626380 && w[17] == 0x000f0000 && w[18] == 0x7da86405 && w[19] == 0x600003c6
    && w[20] == 0x3e9d7b78 && w[21] == 0x0183fc00 && w[22] == 0x12dcbfdb && w[23] == 0xe2e2c38e
  }

  ghost predicate Words3(w: seq<Word>)
    requires |w| == 64
  {
    && w[24] == 0xc8215c1a && w[25] == 0xb73679a2 && w[26] == 0xe5bc3909 && w[27] == 0x32663c5b
    && w[28] == 0x9d209d67 && w[29] == 0xec8726cb && w[30] == 0x702138a4 && w[31] == 0xd3b7973b
  }

  ghost predicate Words4(w: seq<Word>)
    requires |w| == 64
  {
    && w[32] == 0x93f5997f && w[33] == 0x3b68ba73 && w[34] == 0xaff4ffc1 && w[35] == 0xf10a5c62
    && w[36] == 0x0a8b3996 && w[37] == 0x72af830a && w[38] == 0x9409e33e && w[39] == 0x24641522
  }

  ghost predicate Words5(w: seq<Word>)
    requires |w| == 64
  {
    && w[40] == 0x9f47bf94 && w[41] == 0xf0a64f5a && w[42] == 0x3e246a79 && w[43] == 0x27333ba3
    && w[44] == 0x0c4763f2 && w[45] == 0x840abf27 && w[46] == 0x7a290d5d && w[47] == 0x065c43da
  }

  ghost predicate Words6(w: seq<Word>)
    requires |w| == 64
  {
    && w[48] == 0xfb3e89cb && w[49] == 0xcc7617db && w[50] == 0xb9e66c34 && w[51] == 0xa9993667
    && w[52] == 0x84badedd && w[53] == 0xc21462bc && w[54] == 0x1487472c && w[55] == 0xb20f7a99
  }

  ghost predicate Words7(w: seq<Word>)
    requires |w| == 64
  {
    && w[56] == 0xef57b9cd && w[57] == 0xebe6b238 && w[58] == 0x9fe3095e && w[59] == 0x78bc8d4b
    && w[60] == 0xa43fcf15 && w[61] == 0x668b2ff8 && w[62] == 0xeeaba2cc && w[63] == 0x12b1edeb
  }

  lemma Constants01()
    ensures Constants0(K) && Constants1(K)
  {
  }

  lemma Constants23()
    ensures Constants2(K) && Constants3(K)
  {
  }

  lemma Constants45()
    ensures Constants4(K) && Constants5(K)
  {
  }

  lemma Constants67()
    ensures Constants6(K) && Constants7(K)
  {
  }

  ghost predicate AllConstants(k: seq<Word>)
    requires |k| == 64
  {
    && Constants0(k) && Constants1(k) && Constants2(k) && Constants3(k)
    && Constants4(k) && Constants5(k) && Constants6(k) && Constants7(k)
  }

  lemma TableConstants()
    ensures AllConstants(K)
  {
    Constants01();
    Constants23();
    Constants45();
    Constants67();
  }

  // ---------- the schedule ----------

  function FirstWord(t: nat): Word { if t == 0 then 0x61626380 else if t == 15 then 0x18 else 0 }

  lemma AbcWord(t: nat)
    requires t < 16
    ensures Schedule(AbcBlock(), t) == FirstWord(t)
  {
    var b := AbcBlock();
    BlockBytes();
    if t == 0 {
      assert b[4 * 0..4 * 0 + 4] == b[..4];
    } else if t == 15 {
      assert b[4 * 15..4 * 15 + 4] == b[60..];
    } else {
      assert b[4 * t..4 * t + 4] == [0, 0, 0, 0];
    }
  }

  lemma FirstWords(w: seq<Word>)
    requires |w| == 64 && forall t :: 0 <= t < 16 ==> w[t] == FirstWord(t)
    ensures Words0(w) && Words1(w)
  {
  }

  /** The schedule of a block follows its rule. */
  ghost predicate Follows(w: seq<Word>)
    requires |w| == 64
  {
    forall t {:trigger w[t]} :: 16 <= t < 64 ==> w[t] == NextWord(w[t - 2], w[t - 7], w[t - 15], w[t - 16])
  }

  lemma MoreWords2(w: seq<Word>)
    requires |w| == 64 && Follows(w) && Words0(w) && Words1(w)
    ensures Words2(w)
  {
    assert w[16] == NextWord(w[14], w[9], w[1], w[0]) == 0x61626380;
    assert w[17] == NextWord(w[15], w[10], w[2], w[1]) == 0x000f0000;
    assert w[18] == NextWord(w[16], w[11], w[3], w[2]) == 0x7da86405;
    assert w[19] == NextWord(w[17], w[12], w[4], w[3]) == 0x600003c6;
    assert w[20] == NextWord(w[18], w[13], w[5], w[4]) == 0x3e9d7b78;
    assert w[21] == NextWord(w[19], w[14], w[6], w[5]) == 0x0183fc00;
    assert w[22] == NextWord(w[20], w[15], w[7], w[6]) == 0x12dcbfdb;
    assert w[23] == NextWord(w[21], w[16], w[8], w[7]) == 0xe2e2c38e;
  }

  lemma MoreWords3(w: seq<Word>)
    requires |w| == 64 && Follows(w) && Words1(w) && Words2(w)
    ensures Words3(w)
  {
    assert w[24] == NextWord(w[22], w[17], w[9], w[8]) == 0xc8215c1a;
    assert w[25] == NextWord(w[23], w[18], w[10], w[9]) == 0xb73679a2;
    assert w[26] == NextWord(w[24], w[19], w[11], w[10]) == 0xe5bc3909;
    assert w[27] == NextWord(w[25], w[20], w[12], w[11]) == 0x32663c5b;
    assert w[28] == NextWord(w[26], w[21], w[13], w[12]) == 0x9d209d67;
    assert w[29] == NextWord(w[27], w[22], w[14], w[13]) == 0xec8726cb;
    assert w[30] == NextWord(w[28], w[23], w[15], w[14]) == 0x702138a4;
    assert w[31] == NextWord(w[29], w[24], w[16], w[15]) == 0xd3b7973b;
  }

  lemma MoreWords4(w: seq<Word>)
    requires |w| == 64 && Follows(w) && Words2(w) && Words3(w)
    ensures Words4(w)
  {
    assert w[32] == NextWord(w[30], w[25], w[17], w[16]) == 0x93f5997f;
    assert w[33] == NextWord(w[31], w[26], w[18], w[17]) == 0x3b68ba73;
    assert w[34] == NextWord(w[32], w[27], w[19], w[18]) == 0xaff4ffc1;
    assert w[35] == NextWord(w[33], w[28], w[20], w[19]) == 0xf10a5c62;
    assert w[36] == NextWord(w[34], w[29], w[21], w[20]) == 0x0a8b3996;
    assert w[37] == NextWord(w[35], w[30], w[22], w[21]) == 0x72af830a;
    assert w[38] == NextWord(w[36], w[31], w[23], w[22]) == 0x9409e33e;
    assert w[39] == NextWord(w[37], w[32], w[24], w[23]) == 0x24641522;
  }

  lemma MoreWords5(w: seq<Word>)
    requires |w| == 64 && Follows(w) && Words3(w) && Words4(w)
    ensures Words5(w)
  {
    assert w[40] == NextWord(w[38], w[33], w[25], w[24]) == 0x9f47bf94;
    assert w[41] == NextWord(w[39], w[34], w[26], w[25]) == 0xf0a64f5a;
    assert w[42] == NextWord(w[40], w[35], w[27], w[26]) == 0x3e246a79;
    assert w[43] == NextWord(w[41], w[36], w[28], w[27]) == 0x27333ba3;
    assert w[44] == NextWord(w[42], w[37], w[29], w[28]) == 0x0c4763f2;
    assert w[45] == NextWord(w[43], w[38], w[30], w[29]) == 0x840abf27;
    assert w[46] == NextWord(w[44], w[39], w[31], w[30]) == 0x7a290d5d;
    assert w[47] == NextWord(w[45], w[40], w[32], w[31]) == 0x065c43da;
  }

  lemma MoreWords6(w: seq<Word>)
    requires |w| == 64 && Follows(w) && Words4(w) && Words5(w)
    ensures Words6(w)
  {
    assert w[48] == NextWord(w[46], w[41], w[33], w[32]) == 0xfb3e89cb;
    assert w[49] == NextWord(w[47], w[42], w[34], w[33]) == 0xcc7617db;
    assert w[50] == NextWord(w[48], w[43], w[35], w[34]) == 0xb9e66c34;
    assert w[51] == NextWord(w[49], w[44], w[36], w[35]) == 0xa9993667;
    assert w[52] == NextWord(w[50], w[45], w[37], w[36]) == 0x84badedd;
    assert w[53] == NextWord(w[51], w[46], w[38], w[37]) == 0xc21462bc;
    assert w[54] == NextWord(w[52], w[47], w[39], w[38]) == 0x1487472c;
    assert w[55] == NextWord(w[53], w[48], w[40], w[39]) == 0xb20f7a99;
  }

  lemma MoreWords7(w: seq<Word>)
    requires |w| == 64 && Follows(w) && Words5(w) && Words6(w)
    ensures Words7(w)
  {
    assert w[56] == NextWord(w[54], w[49], w[41], w[40]) == 0xef57b9cd;
    assert w[57] == NextWord(w[55], w[50], w[42], w[41]) == 0xebe6b238;
    assert w[58] == NextWord(w[56], w[51], w[43], w[42]) == 0x9fe3095e;
    assert w[59] == NextWord(w[57], w[52], w[44], w[43]) == 0x78bc8d4b;
    assert w[60] == NextWord(w[58], w[53], w[45], w[44]) == 0xa43fcf15;
    assert w[61] == NextWord(w[59], w[54], w[46], w[45]) == 0x668b2ff8;
    assert w[62] == NextWord(w[60], w[55], w[47], w[46]) == 0xeeaba2cc;
    assert w[63] == NextWord(w[61], w[56], w[48], w[47]) == 0x12b1edeb;
  }

  // ---------- the rounds ----------

  lemma Rounds0(k: seq<Word>, w: seq<Word>)
    requires |k| == |w| == 64 && Constants0(k) && Words0(w)
    ensures Rounds(INITIAL, w, k, 8) ==
      State(0x85a07b5f, 0xe5030380, 0x2b4209f5, 0x04409a6a, 0x0c657a79, 0x9b27a401, 0x714260ad, 0x43ada245)
  {
    assert Rounds(INITIAL, w, k, 1) ==
      State(0x5d6aebcd, 0x6a09e667, 0xbb67ae85, 0x3c6ef372, 0xfa2a4622, 0x510e527f, 0x9b05688c, 0x1f83d9ab);
    assert Rounds(INITIAL, w, k, 2) ==
      State(0x5a6ad9ad, 0x5d6aebcd, 0x6a09e667, 0xbb67ae85, 0x78ce7989, 0xfa2a4622, 0x510e527f, 0x9b05688c);
    assert Rounds(INITIAL, w, k, 3) ==
      State(0xc8c347a7, 0x5a6ad9ad, 0x5d6aebcd, 0x6a09e667, 0xf92939eb, 0x78ce7989, 0xfa2a4622, 0x510e527f);
    assert Rounds(INITIAL, w, k, 4) ==
      State(0xd550f666, 0xc8c347a7, 0x5a6ad9ad, 0x5d6aebcd, 0x24e00850, 0xf92939eb, 0x78ce7989, 0xfa2a4622);
    assert Rounds(INITIAL, w, k, 5) ==
      State(0x04409a6a, 0xd550f666, 0xc8c347a7, 0x5a6ad9ad, 0x43ada245, 0x24e00850, 0xf92939eb, 0x78ce7989);
    assert Rounds(INITIAL, w, k, 6) ==
      State(0x2b4209f5, 0x04409a6a, 0xd550f666, 0xc8c347a7, 0x714260ad, 0x43ada245, 0x24e00850, 0xf92939eb);
    assert Rounds(INITIAL, w, k, 7) ==
      State(0xe5030380, 0x2b4209f5, 0x04409a6a, 0xd550f666, 0x9b27a401, 0x714260ad, 0x43ada245, 0x24e00850);
  }

  lemma Rounds1(k: seq<Word>, w: seq<Word>)
    requires |k| == |w| == 64 && Constants1(k) && Words1(w)
    requires Rounds(INITIAL, w, k, 8) ==
      State(0x85a07b5f, 0xe5030380, 0x2b4209f5, 0x04409a6a, 0x0c657a79, 0x9b27a401, 0x714260ad, 0x43ada245)
    ensures Rounds(INITIAL, w, k, 16) ==
      State(0xb0fa238e, 0xc0645fde, 0xd932eb16, 0x87912990, 0x07590dcd, 0x0b92f20c, 0x745a48de, 0x1e578218)
  {
    assert Rounds(INITIAL, w, k, 10) ==
      State(0x8c87346b, 0x8e04ecb9, 0x85a07b5f, 0xe5030380, 0x1cc92596, 0x32ca2d8c, 0x0c657a79, 0x9b27a401);
    assert Rounds(INITIAL, w, k, 12) ==
      State(0xf71fc5a9, 0x4798a3f4, 0x8c87346b, 0x8e04ecb9, 0x816fd6e9, 0x436b23e8, 0x1cc92596, 0x32ca2d8c);
    assert Rounds(INITIAL, w, k, 14) ==
      State(0xd932eb16, 0x87912990, 0xf71fc5a9, 0x4798a3f4, 0x745a48de, 0x1e578218, 0x816fd6e9, 0x436b23e8);
  }

  lemma Rounds2(k: seq<Word>, w: seq<Word>)
    requires |k| == |w| == 64 && Constants2(k) && Words2(w)
    requires Rounds(INITIAL, w, k, 16) ==
      State(0xb0fa238e, 0xc0645fde, 0xd932eb16, 0x87912990, 0x07590dcd, 0x0b92f20c, 0x745a48de, 0x1e578218)
    ensures Rounds(INITIAL, w, k, 24) ==
      State(0xc5d53d8d, 0xa7a3623f, 0xc2606d6d, 0x9dc68b63, 0xaa47c347, 0x49f5114a, 0xe1257970, 0x8ada8930)
  {
    assert Rounds(INITIAL, w, k, 18) ==
      State(0xc2fbd9d1, 0x21da9a9b, 0xb0fa238e, 0xc0645fde, 0x846ee454, 0x8034229c, 0x07590dcd, 0x0b92f20c);
    assert Rounds(INITIAL, w, k, 20) ==
      State(0xe1f20c33, 0xfe777bbf, 0xc2fbd9d1, 0x21da9a9b, 0xb0638179, 0xcc899961, 0x846ee454, 0x8034229c);
    assert Rounds(INITIAL, w, k, 22) ==
      State(0xc2606d6d, 0x9dc68b63, 0xe1f20c33, 0xfe777bbf, 0xe1257970, 0x8ada8930, 0xb0638179, 0xcc899961);
  }

  lemma Rounds3(k: seq<Word>, w: seq<Word>)
    requires |k| == |w| == 64 && Constants3(k) && Words3(w)
    requires Rounds(INITIAL, w, k, 24) ==
      State(0xc5d53d8d, 0xa7a3623f, 0xc2606d6d, 0x9dc68b63, 0xaa47c347, 0x49f5114a, 0xe1257970, 0x8ada8930)
    ensures Rounds(INITIAL, w, k, 32) ==
      State(0x73b33bf5, 0xea992a22, 0xa0060b30, 0x363482c9, 0xba591112, 0x0109ab3a, 0xade79437, 0x6112a3b7)
  {
    assert Rounds(INITIAL, w, k, 26) ==
      State(0xcde8037d, 0x1c2c2838, 0xc5d53d8d, 0xa7a3623f, 0x14383d8e, 0x2823ef91, 0xaa47c347, 0x49f5114a);
    assert Rounds(INITIAL, w, k, 28) ==
      State(0x77d37528, 0xb62ec4bc, 0xcde8037d, 0x1c2c2838, 0xedffbff8, 0xc74c6516, 0x14383d8e, 0x2823ef91);
    assert Rounds(INITIAL, w, k, 30) ==
      State(0xa0060b30, 0x363482c9, 0x77d37528, 0xb62ec4bc, 0xade79437, 0x6112a3b7, 0xedffbff8, 0xc74c6516);
  }

  lemma Rounds4(k: seq<Word>, w: seq<Word>)
    requires |k| == |w| == 64 && Constants4(k) && Words4(w)
    requires Rounds(INITIAL, w, k, 32) ==
      State(0x73b33bf5, 0xea992a22, 0xa0060b30, 0x363482c9, 0xba591112, 0x0109ab3a, 0xade79437, 0x6112a3b7)
    ensures Rounds(INITIAL, w, k, 40) ==
      State(0x79ea687a, 0x6dc57a8a, 0x34df1604, 0x41a65cb1, 0x1efbc0a0, 0xf0781bc8, 0xa507a53d, 0x0772a26b)
  {
    assert Rounds(INITIAL, w, k, 34) ==
      State(0xfe604df5, 0x98e12507, 0x73b33bf5, 0xea992a22, 0x59249dd3, 0x9cd9f5f6, 0xba591112, 0x0109ab3a);
    assert Rounds(INITIAL, w, k, 36) ==
      State(0x65a0cfe4, 0xa9a7738c, 0xfe604df5, 0x98e12507, 0xf4b002d6, 0x085f3833, 0x59249dd3, 0x9cd9f5f6);
    assert Rounds(INITIAL, w, k, 38) ==
      State(0x34df1604, 0x41a65cb1, 0x65a0cfe4, 0xa9a7738c, 0xa507a53d, 0x0772a26b, 0xf4b002d6, 0x085f3833);
  }

  lemma Rounds5(k: seq<Word>, w: seq<Word>)
    requires |k| == |w| == 64 && Constants5(k) && Words5(w)
    requires Rounds(INITIAL, w, k, 40) ==
      State(0x79ea687a, 0x6dc57a8a, 0x34df1604, 0x41a65cb1, 0x1efbc0a0, 0xf0781bc8, 0xa507a53d, 0x0772a26b)
    ensures Rounds(INITIAL, w, k, 48) ==
      State(0x4172328d, 0xa14c14b0, 0x72ab4b91, 0x26628815, 0xfecf0bc6, 0xd57b94a9, 0xb7755da1, 0xa80f11f0)
  {
    assert Rounds(INITIAL, w, k, 42) ==
      State(0xdf46652f, 0xd6670766, 0x79ea687a, 0x6dc57a8a, 0x838b2711, 0x26352d63, 0x1efbc0a0, 0xf0781bc8);
    assert Rounds(INITIAL, w, k, 44) ==
      State(0x9d4baf93, 0x17aa0dfe, 0xdf46652f, 0xd6670766, 0xfda24c2e, 0xdecd4715, 0x838b2711, 0x26352d63);
    assert Rounds(INITIAL, w, k, 46) ==
      State(0x72ab4b91, 0x26628815, 0x9d4baf93, 0x17aa0dfe, 0xb7755da1, 0xa80f11f0, 0xfda24c2e, 0xdecd4715);
  }

  lemma Rounds6(k: seq<Word>, w: seq<Word>)
    requires |k| == |w| == 64 && Constants6(k) && Words6(w)
    requires Rounds(INITIAL, w, k, 48) ==
      State(0x4172328d, 0xa14c14b0, 0x72ab4b91, 0x26628815, 0xfecf0bc6, 0xd57b94a9, 0xb7755da1, 0xa80f11f0)
    ensures Rounds(INITIAL, w, k, 56) ==
      State(0x38cc9913, 0x3ec45cdb, 0xf5702fdb, 0x101fd28f, 0x54cb266b, 0xe50e1b4f, 0x9f4787c3, 0x529e7d00)
  {
    assert Rounds(INITIAL, w, k, 50) ==
      State(0xf11bfaa8, 0x05757ceb, 0x4172328d, 0xa14c14b0, 0x6e5c390c, 0xbd714038, 0xfecf0bc6, 0xd57b94a9);
    assert Rounds(INITIAL, w, k, 52) ==
      State(0x886e7a22, 0x7a0508a1, 0xf11bfaa8, 0x05757ceb, 0x49231c1e, 0x52f1ccf7, 0x6e5c390c, 0xbd714038);
    assert Rounds(INITIAL, w, k, 54) ==
      State(0xf5702fdb, 0x101fd28f, 0x886e7a22, 0x7a0508a1, 0x9f4787c3, 0x529e7d00, 0x49231c1e, 0x52f1ccf7);
  }

  lemma Rounds7(k: seq<Word>, w: seq<Word>)
    requires |k| == |w| == 64 && Constants7(k) && Words7(w)
    requires Rounds(INITIAL, w, k, 56) ==
      State(0x38cc9913, 0x3ec45cdb, 0xf5702fdb, 0x101fd28f, 0x54cb266b, 0xe50e1b4f, 0x9f4787c3, 0x529e7d00)
    ensures Rounds(INITIAL, w, k, 64) ==
      State(0x506e3058, 0xd39a2165, 0x04d24d6c, 0xb85e2ce9, 0x5ef50f24, 0xfb121210, 0x948d25b6, 0x961f4894)
  {
    assert Rounds(INITIAL, w, k, 58) ==
      State(0xc062d46f, 0xfcd1887b, 0x38cc9913, 0x3ec45cdb, 0x7e44008e, 0x9b5e906c, 0x54cb266b, 0xe50e1b4f);
    assert Rounds(INITIAL, w, k, 60) ==
      State(0xb6ae8fff, 0xffb70472, 0xc062d46f, 0xfcd1887b, 0xb21bad3d, 0x6d83bfc6, 0x7e44008e, 0x9b5e906c);
    assert Rounds(INITIAL, w, k, 62) ==
      State(0x04d24d6c, 0xb85e2ce9, 0xb6ae8fff, 0xffb70472, 0x948d25b6, 0x961f4894, 0xb21bad3d, 0x6d83bfc6);
  }

  lemma AllRounds(k: seq<Word>, w: seq<Word>)
    requires |k| == |w| == 64 && AllConstants(k) && Words0(w) && Words1(w) && Follows(w)
    ensures Rounds(INITIAL, w, k, 64) ==
      State(0x506e3058, 0xd39a2165, 0x04d24d6c, 0xb85e2ce9, 0x5ef50f24, 0xfb121210, 0x948d25b6, 0x961f4894)
  {
    MoreWords2(w);
    MoreWords3(w);
    MoreWords4(w);
    MoreWords5(w);
    MoreWords6(w);
    MoreWords7(w);
    Rounds0(k, w);
    Rounds1(k, w);
    Rounds2(k, w);
    Rounds3(k, w);
    Rounds4(k, w);
    Rounds5(k, w);
    Rounds6(k, w);
    Rounds7(k, w);
  }

  lemma ScheduleFollows(b: Block)
    ensures Follows(WholeSchedule(b))
  {
  }

  lemma AbcWords()
    ensures Words0(WholeSchedule(AbcBlock())) && Words1(WholeSchedule(AbcBlock()))
  {
    var b := AbcBlock();
    var w := WholeSchedule(b);
    forall t: nat | t < 16
      ensures w[t] == FirstWord(t)
    {
      AbcWord(t);
    }
    FirstWords(w);
  }

  lemma AbcRounds()
    ensures Rounds(INITIAL, WholeSchedule(AbcBlock()), K, 64) ==
      State(0x506e3058, 0xd39a2165, 0x04d24d6c, 0xb85e2ce9, 0x5ef50f24, 0xfb121210, 0x948d25b6, 0x961f4894)
  {
    AbcWords();
    ScheduleFollows(AbcBlock());
    TableConstants();
    AllRounds(K, WholeSchedule(AbcBlock()));
  }

  lemma AbcHash()
    ensures Hash(AbcBlock()) ==
      State(0xba7816bf, 0x8f01cfea, 0x414140de, 0x5dae2223, 0xb00361a3, 0x96177a9c, 0xb410ff61, 0xf20015ad)
  {
    var b := AbcBlock();
    AbcRounds();
    assert b[..64] == b && b[64..] == [];
  }

  /** The digest of the example, as the standard prints it. */
  lemma AbcDigest()
    ensures Digest(ABC) ==
      Encode([0xba7816bf, 0x8f01cfea, 0x414140de, 0x5dae2223, 0xb00361a3, 0x96177a9c, 0xb410ff61, 0xf20015ad])
  {
    AbcHash();
    DigestWords(Hash(AbcBlock()));
  }

  lemma DigestWords(s: State)
    requires s == Hash(AbcBlock())
    ensures Digest(ABC) == Encode([s.a, s.b, s.c, s.d, s.e, s.f, s.g, s.h])
  {
    assert 8 * |ABC| % TWO_64 == 24;
  }
}

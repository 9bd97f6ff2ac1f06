/**
 The worked examples of FIPS 197: the encryption of appendix B, and the first words that the longer keys of
 appendices A.2 and A.3 expand to.
 */
module AesVectors {
  import opened Field
  import opened SBox
  import opened Fips197
  import opened AesTables
  import opened AesKeys
  import opened AesCipher

  const KEY: seq<bv8> :=
    [0x2b, 0x7e, 0x15, 0x16, 0x28, 0xae, 0xd2, 0xa6, 0xab, 0xf7, 0x15, 0x88, 0x09, 0xcf, 0x4f, 0x3c]

  const BLOCK: seq<bv8> :=
    [0x32, 0x43, 0xf6, 0xa8, 0x88, 0x5a, 0x30, 0x8d, 0x31, 0x31, 0x98, 0xa2, 0xe0, 0x37, 0x07, 0x34]

  const ANSWER: seq<bv8> :=
    [0x39, 0x25, 0x84, 0x1d, 0x02, 0xdc, 0x09, 0xfb, 0xdc, 0x11, 0x85, 0x97, 0x19, 0x6a, 0x0b, 0x32]

  /** Four words as the columns of a state. */
  function Four(a: bv32, b: bv32, c: bv32, d: bv32): State { State(Unpack(a), Unpack(b), Unpack(c), Unpack(d)) }

  /** Round key `r` of a key. */
  function RoundKey(key: seq<bv8>, r: nat): State
    requires ValidKey(key)
  {
    Four(W(key, 4 * r), W(key, 4 * r + 1), W(key, 4 * r + 2), W(key, 4 * r + 3))
  }

  // ----- expanded keys -----

  lemma KeyStep(r: nat, a: bv32, b: bv32, c: bv32, d: bv32)
    requires r >= 1 && RoundKey(KEY, r - 1) == Four(a, b, c, d)
    ensures var e := Xor(a, Xor(SubWord(RotWord(d)), Pack(Column(Rcon(r), 0, 0, 0))));
            var f := Xor(b, e);
            RoundKey(KEY, r) == Four(e, f, Xor(c, f), Xor(d, Xor(c, f)))
  {
    hide Xor, SubWord, RotWord, Pack, Unpack, Rcon, W;
    SameWords(W(KEY, 4 * r - 4), a);
    SameWords(W(KEY, 4 * r - 3), b);
    SameWords(W(KEY, 4 * r - 2), c);
    SameWords(W(KEY, 4 * r - 1), d);
    WindowWord(KEY, r, 0);
    WindowWord(KEY, r, 1);
    WindowWord(KEY, r, 2);
    WindowWord(KEY, r, 3);
  }

  lemma SameWords(v: bv32, w: bv32)
    ensures Unpack(v) == Unpack(w) ==> v == w
  {
    hide Pack, Unpack;
    PackUnpack(v);
    PackUnpack(w);
  }

  lemma FirstWord(key: seq<bv8>, i: nat)
    requires ValidKey(key) && i < |key| / 4
    ensures W(key, i) == KeyWord(key, i)
  {
  }

  lemma Key0()
    ensures RoundKey(KEY, 0) == Four(0x2b7e1516, 0x28aed2a6, 0xabf71588, 0x09cf4f3c)
  {
    hide W;
    FirstWord(KEY, 0);
    FirstWord(KEY, 1);
    FirstWord(KEY, 2);
    FirstWord(KEY, 3);
  }

  lemma Key1()
    ensures RoundKey(KEY, 1) == Four(0xa0fafe17, 0x88542cb1, 0x23a33939, 0x2a6c7605)
  {
    hide RoundKey;
    Key0();
    KeyStep(1, 0x2b7e1516, 0x28aed2a6, 0xabf71588, 0x09cf4f3c);
  }

  lemma Key2()
    ensures RoundKey(KEY, 2) == Four(0xf2c295f2, 0x7a96b943, 0x5935807a, 0x7359f67f)
  {
    hide RoundKey;
    Key1();
    KeyStep(2, 0xa0fafe17, 0x88542cb1, 0x23a33939, 0x2a6c7605);
  }

  lemma Key3()
    ensures RoundKey(KEY, 3) == Four(0x3d80477d, 0x4716fe3e, 0x1e237e44, 0x6d7a883b)
  {
    hide RoundKey;
    Key2();
    KeyStep(3, 0xf2c295f2, 0x7a96b943, 0x5935807a, 0x7359f67f);
  }

  lemma Key4()
    ensures RoundKey(KEY, 4) == Four(0xef44a541, 0xa8525b7f, 0xb671253b, 0xdb0bad00)
  {
    hide RoundKey;
    Key3();
    KeyStep(4, 0x3d80477d, 0x4716fe3e, 0x1e237e44, 0x6d7a883b);
  }

  lemma Key5()
    ensures RoundKey(KEY, 5) == Four(0xd4d1c6f8, 0x7c839d87, 0xcaf2b8bc, 0x11f915bc)
  {
    hide RoundKey;
    Key4();
    KeyStep(5, 0xef44a541, 0xa8525b7f, 0xb671253b, 0xdb0bad00);
  }

  lemma Key6()
    ensures RoundKey(KEY, 6) == Four(0x6d88a37a, 0x110b3efd, 0xdbf98641, 0xca0093fd)
  {
    hide RoundKey;
    Key5();
    KeyStep(6, 0xd4d1c6f8, 0x7c839d87, 0xcaf2b8bc, 0x11f915bc);
  }

  lemma Key7()
    ensures RoundKey(KEY, 7) == Four(0x4e54f70e, 0x5f5fc9f3, 0x84a64fb2, 0x4ea6dc4f)
  {
    hide RoundKey;
    Key6();
    KeyStep(7, 0x6d88a37a, 0x110b3efd, 0xdbf98641, 0xca0093fd);
  }

  lemma Key8()
    ensures RoundKey(KEY, 8) == Four(0xead27321, 0xb58dbad2, 0x312bf560, 0x7f8d292f)
  {
    hide RoundKey;
    Key7();
    KeyStep(8, 0x4e54f70e, 0x5f5fc9f3, 0x84a64fb2, 0x4ea6dc4f);
  }

  lemma Key9()
    ensures RoundKey(KEY, 9) == Four(0xac7766f3, 0x19fadc21, 0x28d12941, 0x575c006e)
  {
    hide RoundKey;
    Key8();
    KeyStep(9, 0xead27321, 0xb58dbad2, 0x312bf560, 0x7f8d292f);
  }

  lemma Key10()
    ensures RoundKey(KEY, 10) == Four(0xd014f9a8, 0xc9ee2589, 0xe13f0cc8, 0xb6630ca6)
  {
    hide RoundKey;
    Key9();
    KeyStep(10, 0xac7766f3, 0x19fadc21, 0x28d12941, 0x575c006e);
  }

  // ----- the rounds of appendix B -----

  lemma Round1(k: State)
    requires k == RoundKey(KEY, 1)
    ensures Round(Four(0x193de3be, 0xa0f4e22b, 0x9ac68d2a, 0xe9f84808), k) ==
            Four(0xa49c7ff2, 0x689f352b, 0x6b5bea43, 0x026a5049)
  {
    hide RoundKey;
    Key1();
  }

  lemma Round2(k: State)
    requires k == RoundKey(KEY, 2)
    ensures Round(Four(0xa49c7ff2, 0x689f352b, 0x6b5bea43, 0x026a5049), k) ==
            Four(0xaa8f5f03, 0x61dde3ef, 0x82d24ad2, 0x6832469a)
  {
    hide RoundKey;
    Key2();
  }

  lemma Round3(k: State)
    requires k == RoundKey(KEY, 3)
    ensures Round(Four(0xaa8f5f03, 0x61dde3ef, 0x82d24ad2, 0x6832469a), k) ==
            Four(0x486c4eee, 0x671d9d0d, 0x4de3b138, 0xd65f58e7)
  {
    hide RoundKey;
    Key3();
  }

  lemma Round4(k: State)
    requires k == RoundKey(KEY, 4)
    ensures Round(Four(0x486c4eee, 0x671d9d0d, 0x4de3b138, 0xd65f58e7), k) ==
            Four(0xe0927fe8, 0xc86363c0, 0xd9b13550, 0x85b8be01)
  {
    hide RoundKey;
    Key4();
  }

  lemma Round5(k: State)
    requires k == RoundKey(KEY, 5)
    ensures Round(Four(0xe0927fe8, 0xc86363c0, 0xd9b13550, 0x85b8be01), k) ==
            Four(0xf1006f55, 0xc1924cef, 0x7cc88b32, 0x5db5d50c)
  {
    hide RoundKey;
    Key5();
  }

  lemma Round6(k: State)
    requires k == RoundKey(KEY, 6)
    ensures Round(Four(0xf1006f55, 0xc1924cef, 0x7cc88b32, 0x5db5d50c), k) ==
            Four(0x260e2e17, 0x3d41b77d, 0xe86472a9, 0xfdd28b25)
  {
    hide RoundKey;
    Key6();
  }

  lemma Round7(k: State)
    requires k == RoundKey(KEY, 7)
    ensures Round(Four(0x260e2e17, 0x3d41b77d, 0xe86472a9, 0xfdd28b25), k) ==
            Four(0x5a4142b1, 0x1949dc1f, 0xa3e01965, 0x7a8c040c)
  {
    hide RoundKey;
    Key7();
  }

  lemma Round8(k: State)
    requires k == RoundKey(KEY, 8)
    ensures Round(Four(0x5a4142b1, 0x1949dc1f, 0xa3e01965, 0x7a8c040c), k) ==
            Four(0xea835cf0, 0x0445332d, 0x655d98ad, 0x8596b0c5)
  {
    hide RoundKey;
    Key8();
  }

  lemma Round9(k: State)
    requires k == RoundKey(KEY, 9)
    ensures Round(Four(0xea835cf0, 0x0445332d, 0x655d98ad, 0x8596b0c5), k) ==
            Four(0xeb40f21e, 0x592e3884, 0x8ba113e7, 0x1bc342d2)
  {
    hide RoundKey;
    Key9();
  }

  lemma Round10(k: State)
    requires k == RoundKey(KEY, 10)
    ensures BytesOf(FinalRound(Four(0xeb40f21e, 0x592e3884, 0x8ba113e7, 0x1bc342d2), k)) == ANSWER
  {
    hide RoundKey;
    Key10();
  }

  lemma FirstAddition(k: State)
    requires k == RoundKey(KEY, 0)
    ensures AddRoundKey(StateOf(BLOCK), k) == Four(0x193de3be, 0xa0f4e22b, 0x9ac68d2a, 0xe9f84808)
  {
    hide RoundKey;
    Key0();
  }

  lemma ScheduleAt(key: seq<bv8>, k: Keys, r: nat)
    requires ValidKey(key) && Expanded(key, k) && r < |k.ke|
    ensures Schedule(k.ke)[r] == RoundKey(key, r)
  {
    hide W, Unpack;
  }

  lemma FiveRounds(k: Keys)
    requires Expanded(KEY, k)
    ensures |k.ke| == 11
    ensures Rounds(Schedule(k.ke), StateOf(BLOCK), 5) == Four(0xf1006f55, 0xc1924cef, 0x7cc88b32, 0x5db5d50c)
  {
    hide RoundKey, Round, AddRoundKey, StateOf, Unpack, W;
    forall r | 0 <= r < 11 ensures Schedule(k.ke)[r] == RoundKey(KEY, r) {
      ScheduleAt(KEY, k, r);
    }
    var keys := Schedule(k.ke);
    FirstAddition(keys[0]);
    Round1(keys[1]);
    Round2(keys[2]);
    Round3(keys[3]);
    Round4(keys[4]);
    Round5(keys[5]);
    RoundsStep(keys, 0);
    RoundsStep(keys, 1);
    RoundsStep(keys, 2);
    RoundsStep(keys, 3);
    RoundsStep(keys, 4);
  }

  lemma RoundsStep(keys: seq<State>, r: nat)
    requires r + 1 < |keys|
    ensures Rounds(keys, StateOf(BLOCK), 0) == AddRoundKey(StateOf(BLOCK), keys[0])
    ensures Rounds(keys, StateOf(BLOCK), r + 1) == Round(Rounds(keys, StateOf(BLOCK), r), keys[r + 1])
  {
    hide Round, AddRoundKey, StateOf;
  }

  /** Under the expanded key of appendix B, the block of appendix B is encrypted to the answer given there. */
  lemma AppendixB(k: Keys)
    requires Expanded(KEY, k)
    ensures EncryptBlock(k.ke, BLOCK) == ANSWER && DecryptBlock(k.kd, ANSWER) == BLOCK
  {
    hide RoundKey, Round, FinalRound, AddRoundKey, StateOf, BytesOf, Unpack, W, DecryptBlock, Rounds;
    FiveRounds(k);
    forall r | 0 <= r < 11 ensures Schedule(k.ke)[r] == RoundKey(KEY, r) {
      ScheduleAt(KEY, k, r);
    }
    var keys := Schedule(k.ke);
    Round6(keys[6]);
    Round7(keys[7]);
    Round8(keys[8]);
    Round9(keys[9]);
    Round10(keys[10]);
    RoundsStep(keys, 5);
    RoundsStep(keys, 6);
    RoundsStep(keys, 7);
    RoundsStep(keys, 8);
    DecryptInvertsEncrypt(KEY, k, BLOCK);
  }

  // ----- longer keys -----

  /** The key of 24 bytes in appendix A.2. */
  ghost predicate IsKeyA2(key: seq<bv8>) {
    && |key| == 24
    && KeyWord(key, 0) == 0x8e73b0f7 && KeyWord(key, 1) == 0xda0e6452
    && KeyWord(key, 2) == 0xc810f32b && KeyWord(key, 3) == 0x809079e5
    && KeyWord(key, 4) == 0x62f8ead2 && KeyWord(key, 5) == 0x522c6b7b
  }

  /** The key of 32 bytes in appendix A.3. */
  ghost predicate IsKeyA3(key: seq<bv8>) {
    && |key| == 32
    && KeyWord(key, 0) == 0x603deb10 && KeyWord(key, 1) == 0x15ca71be
    && KeyWord(key, 2) == 0x2b73aef0 && KeyWord(key, 3) == 0x857d7781
    && KeyWord(key, 4) == 0x1f352c07 && KeyWord(key, 5) == 0x3b6108d7
    && KeyWord(key, 6) == 0x2d9810a3 && KeyWord(key, 7) == 0x0914dff4
  }

  lemma FirstHalfA2(key: seq<bv8>)
    requires IsKeyA2(key)
    ensures W(key, 6) == 0xfe0c91f7 && W(key, 7) == 0x2402f5a5 && W(key, 8) == 0xec12068e
  {
    hide W, KeyWord;
    FirstWord(key, 0);
    FirstWord(key, 1);
    FirstWord(key, 2);
    FirstWord(key, 5);
    WindowWord(key, 1, 0);
    WindowWord(key, 1, 1);
    WindowWord(key, 1, 2);
  }

  /** The words that follow the key of appendix A.2. */
  lemma AppendixA2(key: seq<bv8>)
    requires IsKeyA2(key)
    ensures W(key, 6) == 0xfe0c91f7 && W(key, 7) == 0x2402f5a5
    ensures W(key, 8) == 0xec12068e && W(key, 9) == 0x6c827f6b
    ensures W(key, 10) == 0x0e7a95b9 && W(key, 11) == 0x5c56fec2
  {
    hide W, KeyWord, SubWord, RotWord, Rcon, Pack;
    FirstHalfA2(key);
    FirstWord(key, 3);
    FirstWord(key, 4);
    FirstWord(key, 5);
    WindowWord(key, 1, 3);
    WindowWord(key, 1, 4);
    WindowWord(key, 1, 5);
  }

  lemma FirstHalfA3(key: seq<bv8>)
    requires IsKeyA3(key)
    ensures W(key, 8) == 0x9ba35411 && W(key, 9) == 0x8e6925af
    ensures W(key, 10) == 0xa51a8b5f && W(key, 11) == 0x2067fcde
  {
    hide W, KeyWord;
    FirstWord(key, 0);
    FirstWord(key, 1);
    FirstWord(key, 2);
    FirstWord(key, 3);
    FirstWord(key, 7);
    WindowWord(key, 1, 0);
    WindowWord(key, 1, 1);
    WindowWord(key, 1, 2);
    WindowWord(key, 1, 3);
  }

  /** The words that follow the key of appendix A.3; the fifth of them is substituted. */
  lemma AppendixA3(key: seq<bv8>)
    requires IsKeyA3(key)
    ensures W(key, 8) == 0x9ba35411 && W(key, 9) == 0x8e6925af
    ensures W(key, 10) == 0xa51a8b5f && W(key, 11) == 0x2067fcde
    ensures W(key, 12) == 0xa8b09c1a && W(key, 13) == 0x93d194cd
    ensures W(key, 14) == 0xbe49846e && W(key, 15) == 0xb75d5b9a
  {
    hide W, KeyWord;
    FirstHalfA3(key);
    FirstWord(key, 4);
    FirstWord(key, 5);
    FirstWord(key, 6);
    FirstWord(key, 7);
    WindowWord(key, 1, 4);
    WindowWord(key, 1, 5);
    WindowWord(key, 1, 6);
    WindowWord(key, 1, 7);
  }
}

/**
 The AES transformations and the key schedule as FIPS 197 states them, on a state of four
 columns of bytes. Everything here is independent of the lookup tables.
 */
module Fips197 {
  import opened Field
  import opened SBox

  datatype Column = Column(b0: bv8, b1: bv8, b2: bv8, b3: bv8)
  datatype State = State(c0: Column, c1: Column, c2: Column, c3: Column)

  const ZERO := Column(0, 0, 0, 0)

  // ----- one column -----

  function AddColumn(c: Column, d: Column): Column {
    Column(Add(c.b0, d.b0), Add(c.b1, d.b1), Add(c.b2, d.b2), Add(c.b3, d.b3))
  }

  function SubColumn(c: Column): Column {
    Column(S(c.b0), S(c.b1), S(c.b2), S(c.b3))
  }

  function InvSubColumn(c: Column): Column {
    Column(Si(c.b0), Si(c.b1), Si(c.b2), Si(c.b3))
  }

  /** Section 5.1.3: the column as a polynomial times {03}x^3 + {01}x^2 + {01}x + {02}. */
  function MixColumn(c: Column): Column {
    Column(Add(Add(Add(XTime(c.b0), Times3(c.b1)), c.b2), c.b3),
           Add(Add(Add(c.b0, XTime(c.b1)), Times3(c.b2)), c.b3),
           Add(Add(Add(c.b0, c.b1), XTime(c.b2)), Times3(c.b3)),
           Add(Add(Add(Times3(c.b0), c.b1), c.b2), XTime(c.b3)))
  }

  /** Section 5.3.3: the inverse polynomial {0b}x^3 + {0d}x^2 + {09}x + {0e}. */
  function InvMixColumn(c: Column): Column {
    Column(Add(Add(Add(Times14(c.b0), Times11(c.b1)), Times13(c.b2)), Times9(c.b3)),
           Add(Add(Add(Times9(c.b0), Times14(c.b1)), Times11(c.b2)), Times13(c.b3)),
           Add(Add(Add(Times13(c.b0), Times9(c.b1)), Times14(c.b2)), Times11(c.b3)),
           Add(Add(Add(Times11(c.b0), Times13(c.b1)), Times9(c.b2)), Times14(c.b3)))
  }

  lemma AddLaws3(a: bv8, b: bv8)
    ensures Add(Add(a, b), b) == a
    ensures Add(a, 0) == a && Add(0, a) == a
  {
  }

  lemma AddColumnCancels(c: Column, k: Column)
    ensures AddColumn(AddColumn(c, k), k) == c
  {
    hide Add;
    AddLaws3(c.b0, k.b0);
    AddLaws3(c.b1, k.b1);
    AddLaws3(c.b2, k.b2);
    AddLaws3(c.b3, k.b3);
  }

  lemma SubColumnInverse(c: Column)
    ensures InvSubColumn(SubColumn(c)) == c
  {
    hide S, Si;
    SiUndoesS(c.b0);
    SiUndoesS(c.b1);
    SiUndoesS(c.b2);
    SiUndoesS(c.b3);
  }

  /** Four-term sums may be added pairwise. */
  lemma AddSwap4(a: bv8, b: bv8, c: bv8, d: bv8, a': bv8, b': bv8, c': bv8, d': bv8)
    ensures Add(Add(Add(Add(a, a'), Add(b, b')), Add(c, c')), Add(d, d'))
         == Add(Add(Add(Add(a, b), c), d), Add(Add(Add(a', b'), c'), d'))
  {
    hide Add;
    AddSwap(a, a', b, b');
    AddSwap(Add(a, b), Add(a', b'), c, c');
    AddSwap(Add(Add(a, b), c), Add(Add(a', b'), c'), d, d');
  }

  lemma InvMixColumnLinear(c: Column, d: Column)
    ensures InvMixColumn(AddColumn(c, d)) == AddColumn(InvMixColumn(c), InvMixColumn(d))
  {
    hide XTime, Add, Times9, Times11, Times13, Times14;
    TimesLinear(c.b0, d.b0);
    TimesLinear(c.b1, d.b1);
    TimesLinear(c.b2, d.b2);
    TimesLinear(c.b3, d.b3);
    AddSwap4(Times14(c.b0), Times11(c.b1), Times13(c.b2), Times9(c.b3),
             Times14(d.b0), Times11(d.b1), Times13(d.b2), Times9(d.b3));
    AddSwap4(Times9(c.b0), Times14(c.b1), Times11(c.b2), Times13(c.b3),
             Times9(d.b0), Times14(d.b1), Times11(d.b2), Times13(d.b3));
    AddSwap4(Times13(c.b0), Times9(c.b1), Times14(c.b2), Times11(c.b3),
             Times13(d.b0), Times9(d.b1), Times14(d.b2), Times11(d.b3));
    AddSwap4(Times11(c.b0), Times13(c.b1), Times9(c.b2), Times14(c.b3),
             Times11(d.b0), Times13(d.b1), Times9(d.b2), Times14(d.b3));
  }

  // The image of a column with a single nonzero byte, one function per row.
  function Mix0(b: bv8): Column { Column(XTime(b), b, b, Times3(b)) }
  function Mix1(b: bv8): Column { Column(Times3(b), XTime(b), b, b) }
  function Mix2(b: bv8): Column { Column(b, Times3(b), XTime(b), b) }
  function Mix3(b: bv8): Column { Column(b, b, Times3(b), XTime(b)) }

  lemma MixColumnByRows(c: Column)
    ensures MixColumn(c) == AddColumn(AddColumn(AddColumn(Mix0(c.b0), Mix1(c.b1)), Mix2(c.b2)), Mix3(c.b3))
  {
    hide XTime, Add, Times3;
  }

  lemma InvMixRow0(b: bv8) ensures InvMixColumn(Mix0(b)) == Column(b, 0, 0, 0) {}
  lemma InvMixRow1(b: bv8) ensures InvMixColumn(Mix1(b)) == Column(0, b, 0, 0) {}
  lemma InvMixRow2(b: bv8) ensures InvMixColumn(Mix2(b)) == Column(0, 0, b, 0) {}
  lemma InvMixRow3(b: bv8) ensures InvMixColumn(Mix3(b)) == Column(0, 0, 0, b) {}

  lemma MixColumnInverse(c: Column)
    ensures InvMixColumn(MixColumn(c)) == c
  {
    hide XTime, Add, Times9, Times11, Times13, Times14, Times3, InvMixColumn, MixColumn, Mix0, Mix1, Mix2, Mix3;
    MixColumnByRows(c);
    var m01 := AddColumn(Mix0(c.b0), Mix1(c.b1));
    var m012 := AddColumn(m01, Mix2(c.b2));
    InvMixColumnLinear(m012, Mix3(c.b3));
    InvMixColumnLinear(m01, Mix2(c.b2));
    InvMixColumnLinear(Mix0(c.b0), Mix1(c.b1));
    InvMixRow0(c.b0);
    InvMixRow1(c.b1);
    InvMixRow2(c.b2);
    InvMixRow3(c.b3);
    AddLaws3(c.b0, 0);
    AddLaws3(c.b1, 0);
    AddLaws3(c.b2, 0);
    AddLaws3(c.b3, 0);
    AddLaws3(0, 0);
  }

  // ----- the whole state -----

  function AddRoundKey(s: State, k: State): State {
    State(AddColumn(s.c0, k.c0), AddColumn(s.c1, k.c1), AddColumn(s.c2, k.c2), AddColumn(s.c3, k.c3))
  }

  function SubBytes(s: State): State {
    State(SubColumn(s.c0), SubColumn(s.c1), SubColumn(s.c2), SubColumn(s.c3))
  }

  function InvSubBytes(s: State): State {
    State(InvSubColumn(s.c0), InvSubColumn(s.c1), InvSubColumn(s.c2), InvSubColumn(s.c3))
  }

  /** Row r moves left by r columns. */
  function ShiftRows(s: State): State {
    State(Column(s.c0.b0, s.c1.b1, s.c2.b2, s.c3.b3),
          Column(s.c1.b0, s.c2.b1, s.c3.b2, s.c0.b3),
          Column(s.c2.b0, s.c3.b1, s.c0.b2, s.c1.b3),
          Column(s.c3.b0, s.c0.b1, s.c1.b2, s.c2.b3))
  }

  /** Row r moves right by r columns. */
  function InvShiftRows(s: State): State {
    State(Column(s.c0.b0, s.c3.b1, s.c2.b2, s.c1.b3),
          Column(s.c1.b0, s.c0.b1, s.c3.b2, s.c2.b3),
          Column(s.c2.b0, s.c1.b1, s.c0.b2, s.c3.b3),
          Column(s.c3.b0, s.c2.b1, s.c1.b2, s.c0.b3))
  }

  /** The byte in row `r` and column `c`. */
  function At(s: State, r: nat, c: nat): bv8
    requires r < 4 && c < 4
  {
    var col := if c == 0 then s.c0 else if c == 1 then s.c1 else if c == 2 then s.c2 else s.c3;
    if r == 0 then col.b0 else if r == 1 then col.b1 else if r == 2 then col.b2 else col.b3
  }

  /** Row `r` moves left by `r` columns, as section 5.1.2 has it, and back again. */
  lemma RowsMove(s: State, r: nat, c: nat)
    requires r < 4 && c < 4
    ensures At(ShiftRows(s), r, c) == At(s, r, (c + r) % 4)
    ensures At(InvShiftRows(s), r, (c + r) % 4) == At(s, r, c)
  {
    if c == 0 {} else if c == 1 {} else if c == 2 {} else {}
  }

  function MixColumns(s: State): State {
    State(MixColumn(s.c0), MixColumn(s.c1), MixColumn(s.c2), MixColumn(s.c3))
  }

  function InvMixColumns(s: State): State {
    State(InvMixColumn(s.c0), InvMixColumn(s.c1), InvMixColumn(s.c2), InvMixColumn(s.c3))
  }

  // ----- the cipher (section 5.1) and the equivalent inverse cipher (section 5.3.5) -----

  function Round(s: State, k: State): State {
    AddRoundKey(MixColumns(ShiftRows(SubBytes(s))), k)
  }

  function FinalRound(s: State, k: State): State {
    AddRoundKey(ShiftRows(SubBytes(s)), k)
  }

  function InvRound(s: State, k: State): State {
    AddRoundKey(InvMixColumns(InvShiftRows(InvSubBytes(s))), k)
  }

  function InvFinalRound(s: State, k: State): State {
    AddRoundKey(InvShiftRows(InvSubBytes(s)), k)
  }

  /** The state after the initial key addition and `r` full rounds. */
  function Rounds(keys: seq<State>, s: State, r: nat): State
    requires r < |keys|
  {
    if r == 0 then AddRoundKey(s, keys[0]) else Round(Rounds(keys, s, r - 1), keys[r])
  }

  function InvRounds(keys: seq<State>, s: State, r: nat): State
    requires r < |keys|
  {
    if r == 0 then AddRoundKey(s, keys[0]) else InvRound(InvRounds(keys, s, r - 1), keys[r])
  }

  function Cipher(keys: seq<State>, s: State): State
    requires |keys| >= 2
  {
    FinalRound(Rounds(keys, s, |keys| - 2), keys[|keys| - 1])
  }

  function InvCipher(keys: seq<State>, s: State): State
    requires |keys| >= 2
  {
    InvFinalRound(InvRounds(keys, s, |keys| - 2), keys[|keys| - 1])
  }

  /** `dk` is the decryption schedule of `ek`: reversed, the inner keys through InvMixColumns. */
  ghost predicate DecryptionKeys(ek: seq<State>, dk: seq<State>) {
    && |dk| == |ek| >= 2
    && dk[0] == ek[|ek| - 1]
    && dk[|dk| - 1] == ek[0]
    && forall r :: 0 < r < |dk| - 1 ==> dk[r] == InvMixColumns(ek[|ek| - 1 - r])
  }

  lemma AddRoundKeyCancels(s: State, k: State)
    ensures AddRoundKey(AddRoundKey(s, k), k) == s
  {
    hide AddColumn;
    AddColumnCancels(s.c0, k.c0);
    AddColumnCancels(s.c1, k.c1);
    AddColumnCancels(s.c2, k.c2);
    AddColumnCancels(s.c3, k.c3);
  }

  lemma SubBytesInverse(s: State)
    ensures InvSubBytes(SubBytes(s)) == s
  {
    hide SubColumn, InvSubColumn;
    SubColumnInverse(s.c0);
    SubColumnInverse(s.c1);
    SubColumnInverse(s.c2);
    SubColumnInverse(s.c3);
  }

  lemma ShiftSubInverse(s: State)
    ensures InvShiftRows(InvSubBytes(ShiftRows(SubBytes(s)))) == s
  {
    hide S, Si;
    assert InvSubBytes(ShiftRows(SubBytes(s))) == ShiftRows(InvSubBytes(SubBytes(s)));
    SubBytesInverse(s);
    assert InvShiftRows(ShiftRows(s)) == s;
  }

  lemma MixColumnsInverse(s: State)
    ensures InvMixColumns(MixColumns(s)) == s
  {
    hide MixColumn, InvMixColumn;
    MixColumnInverse(s.c0);
    MixColumnInverse(s.c1);
    MixColumnInverse(s.c2);
    MixColumnInverse(s.c3);
  }

  lemma InvMixColumnsLinear(s: State, k: State)
    ensures InvMixColumns(AddRoundKey(s, k)) == AddRoundKey(InvMixColumns(s), InvMixColumns(k))
  {
    hide InvMixColumn, AddColumn;
    InvMixColumnLinear(s.c0, k.c0);
    InvMixColumnLinear(s.c1, k.c1);
    InvMixColumnLinear(s.c2, k.c2);
    InvMixColumnLinear(s.c3, k.c3);
  }

  /** An inverse round under the transformed key of a round takes back one full round. */
  lemma InvRoundUndoesRound(s: State, k: State)
    ensures InvRound(ShiftRows(SubBytes(Round(s, k))), InvMixColumns(k)) == ShiftRows(SubBytes(s))
  {
    hide AddRoundKey, MixColumns, InvMixColumns, ShiftRows, InvShiftRows, SubBytes, InvSubBytes;
    var m := MixColumns(ShiftRows(SubBytes(s)));
    ShiftSubInverse(Round(s, k));
    InvMixColumnsLinear(m, k);
    AddRoundKeyCancels(InvMixColumns(m), InvMixColumns(k));
    MixColumnsInverse(ShiftRows(SubBytes(s)));
  }

  lemma {:induction false} InvRoundsMeetRounds(ek: seq<State>, dk: seq<State>, s: State, r: nat)
    requires DecryptionKeys(ek, dk) && r <= |ek| - 2
    ensures InvRounds(dk, Cipher(ek, s), r) == ShiftRows(SubBytes(Rounds(ek, s, |ek| - 2 - r)))
  {
    hide AddRoundKey, Round, ShiftRows, SubBytes, InvRound, InvMixColumns;
    var n := |ek| - 1;
    if r == 0 {
      AddRoundKeyCancels(ShiftRows(SubBytes(Rounds(ek, s, n - 1))), ek[n]);
    } else {
      InvRoundsMeetRounds(ek, dk, s, r - 1);
      InvRoundUndoesRound(Rounds(ek, s, n - 1 - r), ek[n - r]);
    }
  }

  /** Decryption with the transformed schedule inverts encryption, whatever the round keys are. */
  lemma InvCipherInvertsCipher(ek: seq<State>, dk: seq<State>, s: State)
    requires DecryptionKeys(ek, dk)
    ensures InvCipher(dk, Cipher(ek, s)) == s
  {
    hide AddRoundKey, Round, ShiftRows, SubBytes, InvRound, InvMixColumns, InvShiftRows, InvSubBytes, Cipher;
    var n := |ek| - 1;
    InvRoundsMeetRounds(ek, dk, s, n - 1);
    ShiftSubInverse(Rounds(ek, s, 0));
    AddRoundKeyCancels(s, ek[0]);
  }
}

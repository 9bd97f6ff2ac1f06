/**
 The lookup tables of the table-driven implementation, and the proof that one table round is one
 round of FIPS 197. A word holds a column with its first byte in the high bits. The tool keeps
 words as unbounded integers of which only the low 32 bits are ever looked at.
 */
module AesTables {
  import opened Field
  import opened SBox
  import opened Fips197

  function Byte0(w: bv32): bv8 { ((w >> 24) & 0xff) as bv8 }
  function Byte1(w: bv32): bv8 { ((w >> 16) & 0xff) as bv8 }
  function Byte2(w: bv32): bv8 { ((w >> 8) & 0xff) as bv8 }
  function Byte3(w: bv32): bv8 { (w & 0xff) as bv8 }

  function Pack(c: Column): bv32 {
    ((c.b0 as bv32) << 24) | ((c.b1 as bv32) << 16) | ((c.b2 as bv32) << 8) | (c.b3 as bv32)
  }

  function Unpack(w: bv32): Column {
    Column(Byte0(w), Byte1(w), Byte2(w), Byte3(w))
  }

  lemma PackUnpack(w: bv32)
    ensures Pack(Unpack(w)) == w
  {
  }

  lemma UnpackPack(c: Column)
    ensures Unpack(Pack(c)) == c
  {
  }

  /** The `^` of words. */
  function Xor(v: bv32, w: bv32): bv32 { v ^ w }

  lemma UnpackXor(v: bv32, w: bv32)
    ensures Unpack(Xor(v, w)) == AddColumn(Unpack(v), Unpack(w))
  {
  }

  // T1..T4: SubBytes and the MixColumns contribution of one byte.
  function T1(x: bv8): bv32 { Pack(Mix0(S(x))) }
  function T2(x: bv8): bv32 { Pack(Mix1(S(x))) }
  function T3(x: bv8): bv32 { Pack(Mix2(S(x))) }
  function T4(x: bv8): bv32 { Pack(Mix3(S(x))) }

  // The InvMixColumns contribution of one byte, one function per row.
  function Inv0(b: bv8): Column { Column(Times14(b), Times9(b), Times13(b), Times11(b)) }
  function Inv1(b: bv8): Column { Column(Times11(b), Times14(b), Times9(b), Times13(b)) }
  function Inv2(b: bv8): Column { Column(Times13(b), Times11(b), Times14(b), Times9(b)) }
  function Inv3(b: bv8): Column { Column(Times9(b), Times13(b), Times11(b), Times14(b)) }

  // U1..U4 transform decryption round keys; T5..T8 also substitute.
  function U1(x: bv8): bv32 { Pack(Inv0(x)) }
  function U2(x: bv8): bv32 { Pack(Inv1(x)) }
  function U3(x: bv8): bv32 { Pack(Inv2(x)) }
  function U4(x: bv8): bv32 { Pack(Inv3(x)) }
  function T5(x: bv8): bv32 { U1(Si(x)) }
  function T6(x: bv8): bv32 { U2(Si(x)) }
  function T7(x: bv8): bv32 { U3(Si(x)) }
  function T8(x: bv8): bv32 { U4(Si(x)) }

  function Xor4(a: bv32, b: bv32, c: bv32, d: bv32): bv32 { Xor(Xor(Xor(a, b), c), d) }

  lemma UnpackSum(a: Column, b: Column, c: Column, d: Column)
    ensures Unpack(Xor4(Pack(a), Pack(b), Pack(c), Pack(d))) == AddColumn(AddColumn(AddColumn(a, b), c), d)
  {
    hide Pack, Unpack, AddColumn, Xor;
    UnpackPack(a);
    UnpackPack(b);
    UnpackPack(c);
    UnpackPack(d);
    UnpackXor(Pack(a), Pack(b));
    UnpackXor(Xor(Pack(a), Pack(b)), Pack(c));
    UnpackXor(Xor(Xor(Pack(a), Pack(b)), Pack(c)), Pack(d));
  }

  /** The encryption table expression for one column, bytes taken from four words. */
  function TableWord(w0: bv32, w1: bv32, w2: bv32, w3: bv32, k: bv32): bv32 {
    Xor(Xor4(T1(Byte0(w0)), T2(Byte1(w1)), T3(Byte2(w2)), T4(Byte3(w3))), k)
  }

  /** The decryption table expression for one column. */
  function InvTableWord(w0: bv32, w1: bv32, w2: bv32, w3: bv32, k: bv32): bv32 {
    Xor(Xor4(T5(Byte0(w0)), T6(Byte1(w1)), T7(Byte2(w2)), T8(Byte3(w3))), k)
  }

  /** The table expression that transforms one word of a decryption round key. */
  function KeyTableWord(w: bv32): bv32 {
    Xor4(U1(Byte0(w)), U2(Byte1(w)), U3(Byte2(w)), U4(Byte3(w)))
  }

  /** One encryption table expression is SubBytes, MixColumns and the key addition on a column. */
  lemma TableColumn(w0: bv32, w1: bv32, w2: bv32, w3: bv32, k: bv32)
    ensures Unpack(TableWord(w0, w1, w2, w3, k))
         == AddColumn(MixColumn(SubColumn(Column(Byte0(w0), Byte1(w1), Byte2(w2), Byte3(w3)))), Unpack(k))
  {
    hide S, Pack, Unpack, AddColumn, MixColumn, Mix0, Mix1, Mix2, Mix3, Xor, Xor4, Byte0, Byte1, Byte2, Byte3;
    var c := Column(Byte0(w0), Byte1(w1), Byte2(w2), Byte3(w3));
    UnpackXor(Xor4(T1(c.b0), T2(c.b1), T3(c.b2), T4(c.b3)), k);
    UnpackSum(Mix0(S(c.b0)), Mix1(S(c.b1)), Mix2(S(c.b2)), Mix3(S(c.b3)));
    MixColumnByRows(SubColumn(c));
  }

  lemma InvMixColumnByRows(c: Column)
    ensures InvMixColumn(c) == AddColumn(AddColumn(AddColumn(Inv0(c.b0), Inv1(c.b1)), Inv2(c.b2)), Inv3(c.b3))
  {
    hide Add, Times9, Times11, Times13, Times14;
  }

  /** The decryption key transformation is InvMixColumns on one word. */
  lemma KeyTableColumn(w: bv32)
    ensures Unpack(KeyTableWord(w)) == InvMixColumn(Unpack(w))
  {
    hide Pack, AddColumn, InvMixColumn, Inv0, Inv1, Inv2, Inv3, Byte0, Byte1, Byte2, Byte3, Xor4;
    UnpackSum(Inv0(Byte0(w)), Inv1(Byte1(w)), Inv2(Byte2(w)), Inv3(Byte3(w)));
    InvMixColumnByRows(Unpack(w));
  }

  /** One decryption table expression is InvSubBytes, InvMixColumns and the key addition on a column. */
  lemma InvTableColumn(w0: bv32, w1: bv32, w2: bv32, w3: bv32, k: bv32)
    ensures Unpack(InvTableWord(w0, w1, w2, w3, k))
         == AddColumn(InvMixColumn(InvSubColumn(Column(Byte0(w0), Byte1(w1), Byte2(w2), Byte3(w3)))), Unpack(k))
  {
    hide Si, Pack, Unpack, AddColumn, InvMixColumn, Inv0, Inv1, Inv2, Inv3, Xor, Xor4, Byte0, Byte1, Byte2, Byte3;
    var c := Column(Byte0(w0), Byte1(w1), Byte2(w2), Byte3(w3));
    UnpackXor(Xor4(T5(c.b0), T6(c.b1), T7(c.b2), T8(c.b3)), k);
    UnpackSum(Inv0(Si(c.b0)), Inv1(Si(c.b1)), Inv2(Si(c.b2)), Inv3(Si(c.b3)));
    InvMixColumnByRows(InvSubColumn(c));
  }
}

/** A byte as a number, bit by bit. */
module ByteValues {

  function Bit(on: bool, mask: bv8): bv8 { if on then mask else 0 }

  function Byte(d0: bool, d1: bool, d2: bool, d3: bool, d4: bool, d5: bool, d6: bool, d7: bool): bv8 {
    Bit(d0, 0x01) | Bit(d1, 0x02) | Bit(d2, 0x04) | Bit(d3, 0x08)
    | Bit(d4, 0x10) | Bit(d5, 0x20) | Bit(d6, 0x40) | Bit(d7, 0x80)
  }

  function One(on: bool): int { if on then 1 else 0 }

  function Four(d0: bool, d1: bool, d2: bool, d3: bool): (r: int)
    ensures 0 <= r < 16
  {
    One(d0) + 2 * (One(d1) + 2 * (One(d2) + 2 * One(d3)))
  }

  function Value(b: bv8): (r: int)
    ensures 0 <= r < 256
  {
    Four(b & 0x01 != 0, b & 0x02 != 0, b & 0x04 != 0, b & 0x08 != 0)
    + 16 * Four(b & 0x10 != 0, b & 0x20 != 0, b & 0x40 != 0, b & 0x80 != 0)
  }

  /** The bits weigh what they weigh in a byte. */
  lemma ValueIs(b: bv8)
    ensures Value(b) == b as int
  {
  }

  predicate Odd(v: int) { v % 2 == 1 }

  function Low(v: int): bv8 {
    var lo, hi := v % 16, v / 16;
    Byte(Odd(lo), Odd(lo / 2), Odd(lo / 4), Odd(lo / 8), Odd(hi), Odd(hi / 2), Odd(hi / 4), Odd(hi / 8))
  }

  lemma BitsOfByte(d0: bool, d1: bool, d2: bool, d3: bool, d4: bool, d5: bool, d6: bool, d7: bool)
    ensures var b := Byte(d0, d1, d2, d3, d4, d5, d6, d7);
            && (b & 0x01 != 0) == d0 && (b & 0x02 != 0) == d1 && (b & 0x04 != 0) == d2 && (b & 0x08 != 0) == d3
            && (b & 0x10 != 0) == d4 && (b & 0x20 != 0) == d5 && (b & 0x40 != 0) == d6 && (b & 0x80 != 0) == d7
  {
  }

  lemma FourBits(v: int)
    requires 0 <= v < 16
    ensures Four(Odd(v), Odd(v / 2), Odd(v / 4), Odd(v / 8)) == v
  {
  }

  lemma ValueOfLow(v: int)
    requires 0 <= v < 256
    ensures Value(Low(v)) == v
  {
    hide Byte, Odd, Four;
    var lo, hi := v % 16, v / 16;
    BitsOfByte(Odd(lo), Odd(lo / 2), Odd(lo / 4), Odd(lo / 8), Odd(hi), Odd(hi / 2), Odd(hi / 4), Odd(hi / 8));
    FourBits(lo);
    FourBits(hi);
  }
}

/** Bytes, and little-endian numbers as bytes. */
module Words {

  import opened Arithmetic
  import opened ByteValues

  type Bytes = seq<bv8>

  function Zeros(n: nat): Bytes { seq(n, _ => 0) }

  /** `n` bytes, the lowest first. */
  function Pack(x: int, n: nat): (s: Bytes)
    ensures |s| == n
    decreases n
  {
    if n == 0 then [] else [Low(x % 256)] + Pack(x / 256, n - 1)
  }

  function Unpack(s: Bytes): int {
    if s == [] then 0 else Value(s[0]) + 256 * Unpack(s[1..])
  }

  function Limit(n: nat): nat { if n == 0 then 1 else 256 * Limit(n - 1) }

  lemma {:induction false} UnpackPack(x: int, n: nat)
    requires 0 <= x < Limit(n)
    ensures Unpack(Pack(x, n)) == x
    decreases n
  {
    hide Low, Value;
    if n > 0 {
      ValueOfLow(x % 256);
      UnpackPack(x / 256, n - 1);
      assert Pack(x, n)[1..] == Pack(x / 256, n - 1);
    }
  }

  lemma {:induction false} UnpackRange(s: Bytes)
    ensures 0 <= Unpack(s) < Limit(|s|)
  {
    if s != [] {
      UnpackRange(s[1..]);
    }
  }

  lemma {:induction false} UnpackConcat(a: Bytes, b: Bytes)
    ensures Unpack(a + b) == Unpack(a) + Limit(|a|) * Unpack(b)
  {
    hide Value;
    if a == [] {
      assert a + b == b;
    } else {
      UnpackConcat(a[1..], b);
      assert (a + b)[1..] == a[1..] + b;
      assert 256 * (Limit(|a| - 1) * Unpack(b)) == Limit(|a|) * Unpack(b);
    }
  }

  /** The low bytes of a number are the number modulo their range. */
  lemma UnpackLow(a: Bytes, b: Bytes)
    ensures Limit(|a|) > 0 && Unpack(a + b) % Limit(|a|) == Unpack(a)
  {
    hide Unpack, Limit;
    UnpackRange(a);
    UnpackConcat(a, b);
    ModOf(Limit(|a|), Unpack(b), Unpack(a));
  }

  /** `n` bytes, the highest first. */
  function PackHigh(x: int, n: nat): (s: Bytes)
    ensures |s| == n
    decreases n
  {
    if n == 0 then [] else PackHigh(x / 256, n - 1) + [Low(x % 256)]
  }

  function UnpackHigh(s: Bytes): int {
    if s == [] then 0 else 256 * UnpackHigh(s[..|s| - 1]) + Value(s[|s| - 1])
  }

  lemma {:induction false} UnpackPackHigh(x: int, n: nat)
    requires 0 <= x < Limit(n)
    ensures UnpackHigh(PackHigh(x, n)) == x
    decreases n
  {
    hide Low, Value;
    if n > 0 {
      ValueOfLow(x % 256);
      UnpackPackHigh(x / 256, n - 1);
      assert PackHigh(x, n)[..n - 1] == PackHigh(x / 256, n - 1);
    }
  }

  /** The lowest byte of a packed number comes first. */
  lemma FourBytes(s: Bytes)
    requires |s| == 4
    ensures Unpack(s) == Value(s[0]) + 0x100 * Value(s[1]) + 0x1_0000 * Value(s[2]) + 0x100_0000 * Value(s[3])
  {
    hide Value;
    assert s[1..][1..] == s[2..] && s[2..][1..] == s[3..] && s[3..][1..] == [];
    assert Unpack(s[3..]) == Value(s[3]);
    assert Unpack(s[2..]) == Value(s[2]) + 0x100 * Unpack(s[3..]);
  }

  /** The highest byte comes first. */
  lemma FourBytesHigh(s: Bytes)
    requires |s| == 4
    ensures UnpackHigh(s) == 0x100_0000 * Value(s[0]) + 0x1_0000 * Value(s[1]) + 0x100 * Value(s[2]) + Value(s[3])
  {
    hide Value;
    assert s[..3][..2] == s[..2] && s[..2][..1] == s[..1] && s[..1][..0] == [];
    assert UnpackHigh(s[..1]) == Value(s[0]);
    assert UnpackHigh(s[..2]) == 0x100 * UnpackHigh(s[..1]) + Value(s[1]);
  }

  const WORD := 0x1_0000_0000

  lemma WordLimit()
    ensures Limit(4) == WORD
  {
    assert Limit(1) == 256 && Limit(2) == 0x1_0000 && Limit(3) == 0x100_0000;
  }
}

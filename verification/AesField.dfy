/** GF(2^8) with the AES polynomial (FIPS 197 section 4.2), on `bv8` bytes. */
module Field {

  /** Multiplication by x, that is by {02} (FIPS 197 section 4.2.1). */
  function XTime(b: bv8): bv8 {
    (b << 1) ^ (if b & 0x80 != 0 then 0x1b else 0)
  }

  /** Multiplication of two field elements, one multiplier bit at a time. */
  function Mul(a: bv8, n: bv8): bv8 {
    var a1 := XTime(a);
    var a2 := XTime(a1);
    var a3 := XTime(a2);
    var a4 := XTime(a3);
    var a5 := XTime(a4);
    var a6 := XTime(a5);
    var a7 := XTime(a6);
    (if n & 0x01 != 0 then a else 0) ^ (if n & 0x02 != 0 then a1 else 0) ^
    (if n & 0x04 != 0 then a2 else 0) ^ (if n & 0x08 != 0 then a3 else 0) ^
    (if n & 0x10 != 0 then a4 else 0) ^ (if n & 0x20 != 0 then a5 else 0) ^
    (if n & 0x40 != 0 then a6 else 0) ^ (if n & 0x80 != 0 then a7 else 0)
  }

  /** Field addition is exclusive or (FIPS 197 section 4.1). */
  function Add(a: bv8, b: bv8): bv8 { a ^ b }

  // The five constant multipliers of MixColumns and InvMixColumns.
  function Times3(b: bv8): bv8 { Add(XTime(b), b) }
  function Times9(b: bv8): bv8 { Add(XTime(XTime(XTime(b))), b) }
  function Times11(b: bv8): bv8 { Add(XTime(Add(XTime(XTime(b)), b)), b) }
  function Times13(b: bv8): bv8 { Add(XTime(XTime(Add(XTime(b), b))), b) }
  function Times14(b: bv8): bv8 { XTime(Add(XTime(Add(XTime(b), b)), b)) }

  /** The constant multipliers agree with the general multiplication. */
  lemma SmallTimesAreMul(b: bv8)
    ensures XTime(b) == Mul(b, 0x02) && Times3(b) == Mul(b, 0x03)
    ensures Times9(b) == Mul(b, 0x09)
  {
  }

  lemma LargeTimesAreMul(b: bv8)
    ensures Times11(b) == Mul(b, 0x0b) && Times13(b) == Mul(b, 0x0d) && Times14(b) == Mul(b, 0x0e)
  {
  }

  lemma AddLaws(a: bv8, b: bv8, c: bv8)
    ensures Add(a, b) == Add(b, a)
    ensures Add(Add(a, b), c) == Add(a, Add(b, c))
  {
  }

  lemma AddSwap(a: bv8, b: bv8, c: bv8, d: bv8)
    ensures Add(Add(a, b), Add(c, d)) == Add(Add(a, c), Add(b, d))
  {
    hide Add;
    AddLaws(a, b, Add(c, d));
    AddLaws(b, c, d);
    AddLaws(c, b, d);
    AddLaws(a, c, Add(b, d));
  }

  lemma XTimeLinear(a: bv8, b: bv8)
    ensures XTime(Add(a, b)) == Add(XTime(a), XTime(b))
  {
    if a & 0x80 == 0 {
      if b & 0x80 == 0 {} else {}
    } else {
      if b & 0x80 == 0 {} else {}
    }
  }

  /** One Horner step of a constant multiplication is linear. */
  lemma HornerLinear(p: bv8, q: bv8, a: bv8, b: bv8)
    ensures Add(XTime(Add(p, q)), Add(a, b)) == Add(Add(XTime(p), a), Add(XTime(q), b))
  {
    hide XTime, Add;
    XTimeLinear(p, q);
    AddSwap(XTime(p), XTime(q), a, b);
  }

  lemma TimesLinear(a: bv8, b: bv8)
    ensures Times9(Add(a, b)) == Add(Times9(a), Times9(b))
    ensures Times11(Add(a, b)) == Add(Times11(a), Times11(b))
    ensures Times13(Add(a, b)) == Add(Times13(a), Times13(b))
    ensures Times14(Add(a, b)) == Add(Times14(a), Times14(b))
  {
    hide XTime, Add;
    XTimeLinear(a, b);
    XTimeLinear(XTime(a), XTime(b));
    HornerLinear(a, b, a, b);
    HornerLinear(XTime(XTime(a)), XTime(XTime(b)), a, b);
    HornerLinear(XTime(a), XTime(b), a, b);
    HornerLinear(Add(XTime(XTime(a)), a), Add(XTime(XTime(b)), b), a, b);
    XTimeLinear(Add(XTime(a), a), Add(XTime(b), b));
    HornerLinear(XTime(Add(XTime(a), a)), XTime(Add(XTime(b), b)), a, b);
    HornerLinear(Add(XTime(a), a), Add(XTime(b), b), a, b);
    XTimeLinear(Add(XTime(Add(XTime(a), a)), a), Add(XTime(Add(XTime(b), b)), b));
  }
}

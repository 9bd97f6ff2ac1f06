/**
 Cipher block chaining (section 6.2 of NIST SP 800-38A) over the block cipher, and the encrypted
 firmware image the flashing tool builds with it.
 */
module AesCbc {
  import opened AesKeys
  import opened AesCipher
  import opened Results
  import opened Words

  type Block = b: seq<bv8> | |b| == 16 witness seq(16, _ => 0)

  const ZERO_BLOCK: Block := Zeros(16)

  ghost predicate Usable(k: Keys) {
    && |k.ke| >= 2 && |k.kd| >= 2
    && (forall r :: 0 <= r < |k.ke| ==> |k.ke[r]| == 4)
    && (forall r :: 0 <= r < |k.kd| ==> |k.kd[r]| == 4)
  }

  lemma ExpandedIsUsable(key: seq<bv8>, k: Keys)
    requires ValidKey(key) && Expanded(key, k)
    ensures Usable(k)
  {
    hide W;
  }

  function XorBlock(p: Block, l: Block): Block {
    seq(16, i requires 0 <= i < 16 => p[i] ^ l[i])
  }

  lemma XorBlockCancels(p: Block, l: Block)
    ensures XorBlock(XorBlock(p, l), l) == p
  {
    forall i | 0 <= i < 16
      ensures XorBlock(XorBlock(p, l), l)[i] == p[i]
    {
      assert p[i] ^ l[i] ^ l[i] == p[i];
    }
  }

  function CbcEncrypt(k: Keys, iv: Block, ps: seq<Block>): (cs: seq<Block>)
    requires Usable(k)
    ensures |cs| == |ps|
    decreases |ps|
  {
    if ps == [] then []
    else
      var c: Block := EncryptBlock(k.ke, XorBlock(ps[0], iv));
      [c] + CbcEncrypt(k, c, ps[1..])
  }

  function CbcDecrypt(k: Keys, iv: Block, cs: seq<Block>): (ps: seq<Block>)
    requires Usable(k)
    ensures |ps| == |cs|
    decreases |cs|
  {
    if cs == [] then [] else [XorBlock(DecryptBlock(k.kd, cs[0]), iv)] + CbcDecrypt(k, cs[0], cs[1..])
  }

  /** Decryption from the same initialisation vector recovers any number of blocks. */
  lemma {:induction false} CbcRoundTrip(key: seq<bv8>, k: Keys, iv: Block, ps: seq<Block>)
    requires ValidKey(key) && Expanded(key, k) && Usable(k)
    ensures CbcDecrypt(k, iv, CbcEncrypt(k, iv, ps)) == ps
    decreases |ps|
  {
    hide W, Expanded, EncryptBlock, DecryptBlock, XorBlock;
    if ps != [] {
      var c: Block := EncryptBlock(k.ke, XorBlock(ps[0], iv));
      var cs := CbcEncrypt(k, iv, ps);
      assert cs[0] == c && cs[1..] == CbcEncrypt(k, c, ps[1..]);
      CbcRoundTrip(key, k, c, ps[1..]);
      DecryptInvertsEncrypt(key, k, XorBlock(ps[0], iv));
      XorBlockCancels(ps[0], iv);
    }
  }

  lemma {:induction false} CbcEncryptAppend(k: Keys, iv: Block, ps: seq<Block>, p: Block)
    requires Usable(k)
    ensures var cs := CbcEncrypt(k, iv, ps);
            var last := if ps == [] then iv else cs[|cs| - 1];
            CbcEncrypt(k, iv, ps + [p]) == cs + [EncryptBlock(k.ke, XorBlock(p, last))]
    decreases |ps|
  {
    hide EncryptBlock, XorBlock;
    if ps == [] {
      assert ps + [p] == [p];
    } else {
      var c: Block := EncryptBlock(k.ke, XorBlock(ps[0], iv));
      CbcEncryptAppend(k, c, ps[1..], p);
      assert (ps + [p])[1..] == ps[1..] + [p];
    }
  }

  /** Every block is the cipher of its plaintext, byte by byte against the ciphertext before it. */
  lemma {:induction false} CbcChains(k: Keys, iv: Block, ps: seq<Block>, i: nat, x: Block)
    requires Usable(k) && i < |ps|
    requires var before := if i == 0 then iv else CbcEncrypt(k, iv, ps)[i - 1];
             forall j :: 0 <= j < 16 ==> x[j] == ps[i][j] ^ before[j]
    ensures CbcEncrypt(k, iv, ps)[i] == EncryptBlock(k.ke, x)
    decreases |ps|
  {
    hide EncryptBlock;
    if i == 0 {
      assert XorBlock(ps[0], iv) == x;
    } else {
      var c: Block := EncryptBlock(k.ke, XorBlock(ps[0], iv));
      CbcChains(k, c, ps[1..], i - 1, x);
    }
  }

  /** The chaining object; each call moves `last` on to the newest ciphertext block. */
  class Cbc {
    const aes: Keys
    var last: Block

    constructor (aes: Keys, iv: Block)
      ensures this.aes == aes && last == iv
    {
      this.aes := aes;
      last := iv;
    }

    method Encrypt(plaintext: seq<bv8>) returns (r: Result<Block>)
      requires Usable(aes)
      modifies this
      ensures r.Raised? <==> |plaintext| != 16
      ensures r.Raised? ==> last == old(last)
      ensures r.Ok? ==> CbcEncrypt(aes, old(last), [plaintext]) == [r.value] && last == r.value
    {
      hide EncryptBlock;
      if |plaintext| != 16 {
        return Raised;
      }
      var c := AesCipher.Encrypt(aes.ke, XorBlock(plaintext, last));
      last := c.value;
      r := Ok(last);
    }

    method Decrypt(ciphertext: seq<bv8>) returns (r: Result<Block>)
      requires Usable(aes)
      modifies this
      ensures r.Raised? <==> |ciphertext| != 16
      ensures r.Raised? ==> last == old(last)
      ensures r.Ok? ==> CbcDecrypt(aes, old(last), [ciphertext]) == [r.value] && last == ciphertext
    {
      hide DecryptBlock;
      if |ciphertext| != 16 {
        return Raised;
      }
      var d := AesCipher.Decrypt(aes.kd, ciphertext);
      r := Ok(XorBlock(d.value, last));
      last := ciphertext;
    }
  }

  datatype Iv = NoIv | Iv(bytes: seq<bv8>)

  /** Making the object: a missing vector means zeros, a vector of another length is refused. */
  method OpenCbc(key: seq<bv8>, iv: Iv) returns (r: Result<Cbc>)
    ensures r.Raised? <==> !ValidKey(key) || (iv.Iv? && |iv.bytes| != 16)
    ensures r.Ok? ==> fresh(r.value) && Expanded(key, r.value.aes) && Usable(r.value.aes)
    ensures r.Ok? ==> r.value.last == if iv.NoIv? then ZERO_BLOCK else iv.bytes
  {
    hide W, Expanded;
    var aes := ExpandKey(key);
    if aes.Raised? || (iv.Iv? && |iv.bytes| != 16) {
      return Raised;
    }
    ExpandedIsUsable(key, aes.value);
    var cbc := new Cbc(aes.value, if iv.NoIv? then ZERO_BLOCK else iv.bytes);
    r := Ok(cbc);
  }

  // ----- the encrypted firmware image -----

  function Concat(bs: seq<Block>): seq<bv8> {
    if bs == [] then [] else Concat(bs[..|bs| - 1]) + bs[|bs| - 1]
  }

  /** The 16-byte slices of `data`; a shorter rest is dropped. */
  function Slices(data: seq<bv8>, n: nat): (bs: seq<Block>)
    requires 16 * n <= |data|
    ensures |bs| == n
  {
    if n == 0 then [] else Slices(data, n - 1) + [data[16 * (n - 1)..16 * n]]
  }

  lemma {:induction false} ConcatSlices(data: seq<bv8>, n: nat)
    requires 16 * n <= |data|
    ensures Concat(Slices(data, n)) == data[..16 * n]
  {
    if n > 0 {
      ConcatSlices(data, n - 1);
      var bs := Slices(data, n);
      assert bs[..n - 1] == Slices(data, n - 1);
      assert data[..16 * (n - 1)] + data[16 * (n - 1)..16 * n] == data[..16 * n];
    }
  }

  /** What the tool calls padding: fifteen zero bytes, then the whole blocks of the result. */
  function FirmwareBlocks(firmware: seq<bv8>): seq<Block> {
    Slices(firmware + Zeros(15), (|firmware| + 15) / 16)
  }

  /** The blocks are the firmware zero-padded to the next multiple of sixteen, and no further. */
  lemma FirmwarePadding(firmware: seq<bv8>)
    ensures var pad := (16 - |firmware| % 16) % 16;
            Concat(FirmwareBlocks(firmware)) == firmware + Zeros(pad)
  {
    var n := (|firmware| + 15) / 16;
    var pad := (16 - |firmware| % 16) % 16;
    ConcatSlices(firmware + Zeros(15), n);
    assert (firmware + Zeros(15))[..16 * n] == firmware + Zeros(pad);
  }

  /** The encrypted firmware. */
  function Secret(k: Keys, firmware: seq<bv8>): seq<bv8>
    requires Usable(k)
  {
    Concat(CbcEncrypt(k, ZERO_BLOCK, FirmwareBlocks(firmware)))
  }

  lemma SecretLength(k: Keys, firmware: seq<bv8>)
    requires Usable(k)
    ensures |Secret(k, firmware)| == (|firmware| + 15) / 16 * 16
  {
    hide CbcEncrypt, Concat;
    ConcatLength(CbcEncrypt(k, ZERO_BLOCK, FirmwareBlocks(firmware)));
  }

  lemma {:induction false} ConcatLength(blocks: seq<Block>)
    ensures |Concat(blocks)| == 16 * |blocks|
  {
    if blocks != [] {
      ConcatLength(blocks[..|blocks| - 1]);
    }
  }

  lemma {:induction false} ConcatAt(bs: seq<Block>, i: nat, j: nat)
    requires i < |bs| && j < 16
    ensures 16 * i + j < |Concat(bs)| && Concat(bs)[16 * i + j] == bs[i][j]
  {
    var n := |bs| - 1;
    ConcatLength(bs[..n]);
    if i < n {
      ConcatAt(bs[..n], i, j);
    }
  }

  lemma {:induction false} SlicesAt(data: seq<bv8>, n: nat, i: nat)
    requires 16 * n <= |data| && i < n
    ensures Slices(data, n)[i] == data[16 * i..16 * i + 16]
  {
    if i < n - 1 {
      SlicesAt(data, n - 1, i);
    }
  }

  /** Byte `i` of the padded firmware. */
  function PaddedByte(firmware: seq<bv8>, i: nat): bv8 { if i < |firmware| then firmware[i] else 0 }

  /**
   Block `i` of the encrypted firmware is the cipher of sixteen bytes: each is a byte of the padded firmware, from the
   second block on against the byte sixteen places before it in the result.
   */
  lemma SecretChains(k: Keys, firmware: seq<bv8>, i: nat, x: Block)
    requires Usable(k) && 16 * i + 16 <= |Secret(k, firmware)|
    requires forall j :: 0 <= j < 16 ==>
      x[j] == PaddedByte(firmware, 16 * i + j) ^ (if i == 0 then 0 else Secret(k, firmware)[16 * i + j - 16])
    ensures Secret(k, firmware)[16 * i..16 * i + 16] == EncryptBlock(k.ke, x)
  {
    hide CbcEncrypt, EncryptBlock, Concat, Slices;
    var ps := FirmwareBlocks(firmware);
    var cs := CbcEncrypt(k, ZERO_BLOCK, ps);
    SecretLength(k, firmware);
    SlicesAt(firmware + Zeros(15), |ps|, i);
    forall j | 0 <= j < 16 ensures Secret(k, firmware)[16 * i + j] == cs[i][j] {
      ConcatAt(cs, i, j);
    }
    forall j | 0 <= j < 16
      ensures x[j] == ps[i][j] ^ (if i == 0 then ZERO_BLOCK else cs[i - 1])[j]
    {
      if i > 0 {
        ConcatAt(cs, i - 1, j);
        assert 16 * (i - 1) + j == 16 * i + j - 16;
      }
    }
    CbcChains(k, ZERO_BLOCK, ps, i, x);
    assert Secret(k, firmware)[16 * i..16 * i + 16] == cs[i];
  }

  /** The encryption loop of the firmware writer, from a zero initialisation vector. */
  method EncryptFirmware(key: seq<bv8>, firmware: seq<bv8>) returns (r: Result<seq<bv8>>, ghost k: Keys)
    ensures r.Raised? <==> !ValidKey(key)
    ensures r.Ok? ==> Expanded(key, k) && Usable(k)
    ensures r.Ok? ==> r.value == Secret(k, firmware)
  {
    hide W, Expanded, EncryptBlock, XorBlock;
    k := Keys([], []);
    var chain := OpenCbc(key, Iv(ZERO_BLOCK));
    if chain.Raised? {
      return Raised, k;
    }
    var cbc := chain.value;
    k := cbc.aes;
    var padded := firmware + Zeros(15);
    var n := |padded| / 16;
    var out: seq<bv8> := [];
    ghost var cs: seq<Block> := [];
    for i := 0 to n
      invariant cs == CbcEncrypt(k, ZERO_BLOCK, Slices(padded, i))
      invariant cbc.aes == k
      invariant cbc.last == if i == 0 then ZERO_BLOCK else cs[i - 1]
      invariant out == Concat(cs)
    {
      CbcEncryptAppend(k, ZERO_BLOCK, Slices(padded, i), padded[i * 16..i * 16 + 16]);
      var c := cbc.Encrypt(padded[i * 16..i * 16 + 16]);
      cs := cs + [c.value];
      assert cs[..i] + [c.value] == cs;
      out := out + c.value;
    }
    r := Ok(out);
  }

  /** Whoever holds the key reads back the firmware and at most fifteen zero bytes. */
  lemma FirmwareRoundTrip(key: seq<bv8>, k: Keys, firmware: seq<bv8>)
    requires ValidKey(key) && Expanded(key, k) && Usable(k)
    ensures var pad := (16 - |firmware| % 16) % 16;
            Concat(CbcDecrypt(k, ZERO_BLOCK, CbcEncrypt(k, ZERO_BLOCK, FirmwareBlocks(firmware))))
            == firmware + Zeros(pad)
  {
    hide W, Expanded, EncryptBlock, DecryptBlock, XorBlock, FirmwareBlocks;
    CbcRoundTrip(key, k, ZERO_BLOCK, FirmwareBlocks(firmware));
    FirmwarePadding(firmware);
  }
}

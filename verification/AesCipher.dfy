/** Block encryption and decryption by table lookup, and the proof that one inverts the other. */
module AesCipher {
  import opened SBox
  import opened Fips197
  import opened AesTables
  import opened AesKeys
  import opened Results

  function ColumnOf(q: seq<bv8>): Column
    requires |q| == 4
  {
    Column(q[0], q[1], q[2], q[3])
  }

  function ColumnBytes(c: Column): (q: seq<bv8>)
    ensures |q| == 4
  {
    [c.b0, c.b1, c.b2, c.b3]
  }

  /** A block fills the state column by column. */
  function StateOf(p: seq<bv8>): State
    requires |p| == 16
  {
    State(ColumnOf(p[0..4]), ColumnOf(p[4..8]), ColumnOf(p[8..12]), ColumnOf(p[12..16]))
  }

  function BytesOf(s: State): (p: seq<bv8>)
    ensures |p| == 16
  {
    ColumnBytes(s.c0) + ColumnBytes(s.c1) + ColumnBytes(s.c2) + ColumnBytes(s.c3)
  }

  lemma BytesOfStateOf(p: seq<bv8>)
    requires |p| == 16
    ensures BytesOf(StateOf(p)) == p
  {
    hide ColumnOf, ColumnBytes;
    forall q: seq<bv8> | |q| == 4
      ensures ColumnBytes(ColumnOf(q)) == q
    {
      ColumnOfBytes(q, ColumnOf(q));
    }
  }

  lemma ColumnOfBytes(q: seq<bv8>, c: Column)
    requires |q| == 4
    ensures ColumnBytes(ColumnOf(q)) == q
    ensures ColumnOf(ColumnBytes(c)) == c
  {
  }

  lemma StateOfBytesOf(s: State)
    ensures StateOf(BytesOf(s)) == s
  {
    hide ColumnOf, ColumnBytes;
    var p := BytesOf(s);
    assert p[0..4] == ColumnBytes(s.c0) && p[4..8] == ColumnBytes(s.c1);
    assert p[8..12] == ColumnBytes(s.c2) && p[12..16] == ColumnBytes(s.c3);
    ColumnOfBytes(p[0..4], s.c0);
    ColumnOfBytes(p[0..4], s.c1);
    ColumnOfBytes(p[0..4], s.c2);
    ColumnOfBytes(p[0..4], s.c3);
  }

  function WordsState(t: seq<bv32>): State
    requires |t| == 4
  {
    State(Unpack(t[0]), Unpack(t[1]), Unpack(t[2]), Unpack(t[3]))
  }

  /** The round keys as states. */
  function Schedule(rows: Rows): (keys: seq<State>)
    requires forall r :: 0 <= r < |rows| ==> |rows[r]| == 4
    ensures |keys| == |rows|
  {
    seq(|rows|, r requires 0 <= r < |rows| => WordsState(rows[r]))
  }

  lemma ExpandedRow(key: seq<bv8>, k: Keys, r: nat)
    requires ValidKey(key) && Expanded(key, k) && r <= RoundCount(key)
    ensures var rounds := RoundCount(key);
            WordsState(k.kd[r]) == if 0 < r < rounds then InvMixColumns(WordsState(k.ke[rounds - r]))
                                   else WordsState(k.ke[rounds - r])
  {
    hide W, Pack, Unpack, InvMixColumn;
    var rounds := RoundCount(key);
    forall c | 0 <= c < 4
      ensures Unpack(k.kd[r][c]) == if 0 < r < rounds then InvMixColumn(Unpack(k.ke[rounds - r][c]))
                                    else Unpack(k.ke[rounds - r][c])
    {
      UnpackPack(InvMixColumn(Unpack(W(key, 4 * (rounds - r) + c))));
    }
  }

  /** The schedules of the two directions fit together. */
  lemma ExpandedSchedules(key: seq<bv8>, k: Keys)
    requires ValidKey(key) && Expanded(key, k)
    ensures DecryptionKeys(Schedule(k.ke), Schedule(k.kd))
  {
    hide W, Pack, Unpack, InvMixColumns, WordsState;
    forall r | 0 <= r <= RoundCount(key) {
      ExpandedRow(key, k, r);
    }
  }

  function CompactWord(q: seq<bv8>): bv32
    requires |q| == 4
  {
    ((q[0] as bv32) << 24) | ((q[1] as bv32) << 16) | ((q[2] as bv32) << 8) | (q[3] as bv32)
  }

  lemma CompactWordPacks(q: seq<bv8>, k: bv32)
    requires |q| == 4
    ensures Unpack(Xor(CompactWord(q), k)) == AddColumn(ColumnOf(q), Unpack(k))
  {
    hide Unpack, AddColumn, Xor;
    assert CompactWord(q) == Pack(ColumnOf(q));
    UnpackXor(Pack(ColumnOf(q)), k);
    UnpackPack(ColumnOf(q));
  }

  /** The initial key addition, on words. */
  function KeyedWords(p: seq<bv8>, k: seq<bv32>): (t: seq<bv32>)
    requires |p| == 16 && |k| == 4
    ensures |t| == 4
  {
    [Xor(CompactWord(p[0..4]), k[0]), Xor(CompactWord(p[4..8]), k[1]),
     Xor(CompactWord(p[8..12]), k[2]), Xor(CompactWord(p[12..16]), k[3])]
  }

  lemma KeyedWordsMatch(p: seq<bv8>, k: seq<bv32>)
    requires |p| == 16 && |k| == 4
    ensures WordsState(KeyedWords(p, k)) == AddRoundKey(StateOf(p), WordsState(k))
  {
    hide Unpack, AddColumn, Xor, CompactWord, ColumnOf;
    CompactWordPacks(p[0..4], k[0]);
    CompactWordPacks(p[4..8], k[1]);
    CompactWordPacks(p[8..12], k[2]);
    CompactWordPacks(p[12..16], k[3]);
  }

  // ----- one round on words -----

  function RoundWord(t: seq<bv32>, k: seq<bv32>, i: nat): bv32
    requires |t| == 4 && |k| == 4 && i < 4
  {
    TableWord(t[i], t[(i + 1) % 4], t[(i + 2) % 4], t[(i + 3) % 4], k[i])
  }

  function InvRoundWord(t: seq<bv32>, k: seq<bv32>, i: nat): bv32
    requires |t| == 4 && |k| == 4 && i < 4
  {
    InvTableWord(t[i], t[(i + 3) % 4], t[(i + 2) % 4], t[(i + 1) % 4], k[i])
  }

  /** A table round is a round of FIPS 197. */
  lemma RoundMatches(t: seq<bv32>, k: seq<bv32>, a: seq<bv32>)
    requires |t| == 4 && |k| == 4 && |a| == 4 && forall i :: 0 <= i < 4 ==> a[i] == RoundWord(t, k, i)
    ensures WordsState(a) == Round(WordsState(t), WordsState(k))
  {
    hide TableWord, S, AddColumn, MixColumn, Byte0, Byte1, Byte2, Byte3;
    TableColumn(t[0], t[1], t[2], t[3], k[0]);
    TableColumn(t[1], t[2], t[3], t[0], k[1]);
    TableColumn(t[2], t[3], t[0], t[1], k[2]);
    TableColumn(t[3], t[0], t[1], t[2], k[3]);
    assert a[0] == RoundWord(t, k, 0) && a[1] == RoundWord(t, k, 1);
    assert a[2] == RoundWord(t, k, 2) && a[3] == RoundWord(t, k, 3);
  }

  lemma InvRoundMatches(t: seq<bv32>, k: seq<bv32>, a: seq<bv32>)
    requires |t| == 4 && |k| == 4 && |a| == 4 && forall i :: 0 <= i < 4 ==> a[i] == InvRoundWord(t, k, i)
    ensures WordsState(a) == InvRound(WordsState(t), WordsState(k))
  {
    hide InvTableWord, Si, AddColumn, InvMixColumn, Byte0, Byte1, Byte2, Byte3;
    InvTableColumn(t[0], t[3], t[2], t[1], k[0]);
    InvTableColumn(t[1], t[0], t[3], t[2], k[1]);
    InvTableColumn(t[2], t[1], t[0], t[3], k[2]);
    InvTableColumn(t[3], t[2], t[1], t[0], k[3]);
    assert a[0] == InvRoundWord(t, k, 0) && a[1] == InvRoundWord(t, k, 1);
    assert a[2] == InvRoundWord(t, k, 2) && a[3] == InvRoundWord(t, k, 3);
  }

  // ----- the last round on words -----

  /** One substituted byte against one byte of the key word, cut to eight bits. */
  function LastByte(s: bv8, k: bv32): bv8 { (((s as bv32) ^ k) & 0xff) as bv8 }

  lemma LastBytes(s: bv8, k: bv32)
    ensures LastByte(s, k >> 24) == Field.Add(s, Byte0(k))
    ensures LastByte(s, k >> 16) == Field.Add(s, Byte1(k))
    ensures LastByte(s, k >> 8) == Field.Add(s, Byte2(k))
    ensures LastByte(s, k) == Field.Add(s, Byte3(k))
  {
  }

  function LastColumn(w0: bv32, w1: bv32, w2: bv32, w3: bv32, k: bv32): Column {
    Column(LastByte(S(Byte0(w0)), k >> 24), LastByte(S(Byte1(w1)), k >> 16),
           LastByte(S(Byte2(w2)), k >> 8), LastByte(S(Byte3(w3)), k))
  }

  function InvLastColumn(w0: bv32, w1: bv32, w2: bv32, w3: bv32, k: bv32): Column {
    Column(LastByte(Si(Byte0(w0)), k >> 24), LastByte(Si(Byte1(w1)), k >> 16),
           LastByte(Si(Byte2(w2)), k >> 8), LastByte(Si(Byte3(w3)), k))
  }

  lemma LastColumnMatches(w0: bv32, w1: bv32, w2: bv32, w3: bv32, k: bv32)
    ensures LastColumn(w0, w1, w2, w3, k)
         == AddColumn(SubColumn(Column(Byte0(w0), Byte1(w1), Byte2(w2), Byte3(w3))), Unpack(k))
    ensures InvLastColumn(w0, w1, w2, w3, k)
         == AddColumn(InvSubColumn(Column(Byte0(w0), Byte1(w1), Byte2(w2), Byte3(w3))), Unpack(k))
  {
    hide S, Si, LastByte, Byte0, Byte1, Byte2, Byte3, Field.Add;
    LastBytes(S(Byte0(w0)), k);
    LastBytes(S(Byte1(w1)), k);
    LastBytes(S(Byte2(w2)), k);
    LastBytes(S(Byte3(w3)), k);
    LastBytes(Si(Byte0(w0)), k);
    LastBytes(Si(Byte1(w1)), k);
    LastBytes(Si(Byte2(w2)), k);
    LastBytes(Si(Byte3(w3)), k);
  }

  function LastWord(t: seq<bv32>, k: seq<bv32>, i: nat): seq<bv8>
    requires |t| == 4 && |k| == 4 && i < 4
  {
    ColumnBytes(LastColumn(t[i], t[(i + 1) % 4], t[(i + 2) % 4], t[(i + 3) % 4], k[i]))
  }

  function InvLastWord(t: seq<bv32>, k: seq<bv32>, i: nat): seq<bv8>
    requires |t| == 4 && |k| == 4 && i < 4
  {
    ColumnBytes(InvLastColumn(t[i], t[(i + 3) % 4], t[(i + 2) % 4], t[(i + 1) % 4], k[i]))
  }

  /** The bytes of the first `i` columns of the last round. */
  function LastWords(t: seq<bv32>, k: seq<bv32>, i: nat): seq<bv8>
    requires |t| == 4 && |k| == 4 && i <= 4
  {
    if i == 0 then [] else LastWords(t, k, i - 1) + LastWord(t, k, i - 1)
  }

  function InvLastWords(t: seq<bv32>, k: seq<bv32>, i: nat): seq<bv8>
    requires |t| == 4 && |k| == 4 && i <= 4
  {
    if i == 0 then [] else InvLastWords(t, k, i - 1) + InvLastWord(t, k, i - 1)
  }

  lemma LastRoundMatches(t: seq<bv32>, k: seq<bv32>)
    requires |t| == 4 && |k| == 4
    ensures LastWords(t, k, 4) == BytesOf(FinalRound(WordsState(t), WordsState(k)))
  {
    hide S, LastColumn, Byte0, Byte1, Byte2, Byte3, AddColumn, ColumnBytes;
    LastColumnMatches(t[0], t[1], t[2], t[3], k[0]);
    LastColumnMatches(t[1], t[2], t[3], t[0], k[1]);
    LastColumnMatches(t[2], t[3], t[0], t[1], k[2]);
    LastColumnMatches(t[3], t[0], t[1], t[2], k[3]);
    calc {
      LastWords(t, k, 4);
      LastWords(t, k, 2) + LastWord(t, k, 2) + LastWord(t, k, 3);
      LastWords(t, k, 0) + LastWord(t, k, 0) + LastWord(t, k, 1) + LastWord(t, k, 2) + LastWord(t, k, 3);
      LastWord(t, k, 0) + LastWord(t, k, 1) + LastWord(t, k, 2) + LastWord(t, k, 3);
    }
  }

  lemma InvLastRoundMatches(t: seq<bv32>, k: seq<bv32>)
    requires |t| == 4 && |k| == 4
    ensures InvLastWords(t, k, 4) == BytesOf(InvFinalRound(WordsState(t), WordsState(k)))
  {
    hide Si, InvLastColumn, Byte0, Byte1, Byte2, Byte3, AddColumn, ColumnBytes;
    LastColumnMatches(t[0], t[3], t[2], t[1], k[0]);
    LastColumnMatches(t[1], t[0], t[3], t[2], k[1]);
    LastColumnMatches(t[2], t[1], t[0], t[3], k[2]);
    LastColumnMatches(t[3], t[2], t[1], t[0], k[3]);
    calc {
      InvLastWords(t, k, 4);
      InvLastWords(t, k, 2) + InvLastWord(t, k, 2) + InvLastWord(t, k, 3);
      InvLastWords(t, k, 0) + InvLastWord(t, k, 0) + InvLastWord(t, k, 1) + InvLastWord(t, k, 2) + InvLastWord(t, k, 3);
      InvLastWord(t, k, 0) + InvLastWord(t, k, 1) + InvLastWord(t, k, 2) + InvLastWord(t, k, 3);
    }
  }

  // ----- the block functions -----

  function EncryptBlock(ke: Rows, p: seq<bv8>): (c: seq<bv8>)
    requires |ke| >= 2 && |p| == 16 && forall r :: 0 <= r < |ke| ==> |ke[r]| == 4
    ensures |c| == 16
  {
    BytesOf(Cipher(Schedule(ke), StateOf(p)))
  }

  function DecryptBlock(kd: Rows, c: seq<bv8>): (p: seq<bv8>)
    requires |kd| >= 2 && |c| == 16 && forall r :: 0 <= r < |kd| ==> |kd[r]| == 4
    ensures |p| == 16
  {
    BytesOf(InvCipher(Schedule(kd), StateOf(c)))
  }

  /** Table-driven encryption computes the cipher of FIPS 197 under the rows of `ke`. */
  method Encrypt(ke: Rows, plaintext: seq<bv8>) returns (r: Result<seq<bv8>>)
    requires |ke| >= 2 && forall r :: 0 <= r < |ke| ==> |ke[r]| == 4
    ensures r.Raised? <==> |plaintext| != 16
    ensures r.Ok? ==> r.value == EncryptBlock(ke, plaintext)
  {
    hide Round, FinalRound, AddRoundKey, KeyedWords, RoundWord, LastWord, WordsState, BytesOf, StateOf;
    if |plaintext| != 16 {
      return Raised;
    }
    ghost var keys := Schedule(ke);
    var rounds := |ke| - 1;
    var a: seq<bv32> := [0, 0, 0, 0];
    KeyedWordsMatch(plaintext, ke[0]);
    var t := KeyedWords(plaintext, ke[0]);
    for q := 1 to rounds
      invariant |t| == 4 && |a| == 4
      invariant WordsState(t) == Rounds(keys, StateOf(plaintext), q - 1)
    {
      for i := 0 to 4
        invariant |a| == 4
        invariant forall j :: 0 <= j < i ==> a[j] == RoundWord(t, ke[q], j)
      {
        a := a[i := RoundWord(t, ke[q], i)];
      }
      RoundMatches(t, ke[q], a);
      t := a;
    }
    var result: seq<bv8> := [];
    for i := 0 to 4
      invariant result == LastWords(t, ke[rounds], i)
    {
      result := result + LastWord(t, ke[rounds], i);
    }
    LastRoundMatches(t, ke[rounds]);
    r := Ok(result);
  }

  /** Table-driven decryption computes the equivalent inverse cipher under the rows of `kd`. */
  method Decrypt(kd: Rows, ciphertext: seq<bv8>) returns (r: Result<seq<bv8>>)
    requires |kd| >= 2 && forall r :: 0 <= r < |kd| ==> |kd[r]| == 4
    ensures r.Raised? <==> |ciphertext| != 16
    ensures r.Ok? ==> r.value == DecryptBlock(kd, ciphertext)
  {
    hide InvRound, InvFinalRound, AddRoundKey, KeyedWords, InvRoundWord, InvLastWord, WordsState, BytesOf, StateOf;
    if |ciphertext| != 16 {
      return Raised;
    }
    ghost var keys := Schedule(kd);
    var rounds := |kd| - 1;
    var a: seq<bv32> := [0, 0, 0, 0];
    KeyedWordsMatch(ciphertext, kd[0]);
    var t := KeyedWords(ciphertext, kd[0]);
    for q := 1 to rounds
      invariant |t| == 4 && |a| == 4
      invariant WordsState(t) == InvRounds(keys, StateOf(ciphertext), q - 1)
    {
      for i := 0 to 4
        invariant |a| == 4
        invariant forall j :: 0 <= j < i ==> a[j] == InvRoundWord(t, kd[q], j)
      {
        a := a[i := InvRoundWord(t, kd[q], i)];
      }
      InvRoundMatches(t, kd[q], a);
      t := a;
    }
    var result: seq<bv8> := [];
    for i := 0 to 4
      invariant result == InvLastWords(t, kd[rounds], i)
    {
      result := result + InvLastWord(t, kd[rounds], i);
    }
    InvLastRoundMatches(t, kd[rounds]);
    r := Ok(result);
  }

  /** For every 16-, 24- or 32-byte key, decrypting an encrypted block gives the block back. */
  lemma DecryptInvertsEncrypt(key: seq<bv8>, k: Keys, p: seq<bv8>)
    requires ValidKey(key) && Expanded(key, k) && |p| == 16
    ensures DecryptBlock(k.kd, EncryptBlock(k.ke, p)) == p
  {
    hide W, Pack, Unpack, InvMixColumn, InvCipher, Cipher, StateOf, BytesOf, Schedule;
    ExpandedSchedules(key, k);
    var s := Cipher(Schedule(k.ke), StateOf(p));
    StateOfBytesOf(s);
    InvCipherInvertsCipher(Schedule(k.ke), Schedule(k.kd), StateOf(p));
    BytesOfStateOf(p);
  }
}

/**
 Key expansion: the in-place loop over a window of `KC` words against the word recurrence of
 FIPS 197 section 5.2, and the decryption schedule against section 5.3.5.
 */
module AesKeys {
  import opened Field
  import opened SBox
  import opened Fips197
  import opened AesTables
  import opened Results

  predicate ValidKey(key: seq<bv8>) { |key| == 16 || |key| == 24 || |key| == 32 }

  /** The number of rounds: 10, 12 or 14. */
  function RoundCount(key: seq<bv8>): nat
    requires ValidKey(key)
  {
    if |key| == 16 then 10 else if |key| == 24 then 12 else 14
  }

  function KeyWord(key: seq<bv8>, i: nat): bv32
    requires 4 * i + 4 <= |key|
  {
    Pack(Column(key[4 * i], key[4 * i + 1], key[4 * i + 2], key[4 * i + 3]))
  }

  // ----- the recurrence of FIPS 197 section 5.2 -----

  function SubWord(w: bv32): bv32 { Pack(SubColumn(Unpack(w))) }

  function RotWord(w: bv32): bv32 {
    var c := Unpack(w);
    Pack(Column(c.b1, c.b2, c.b3, c.b0))
  }

  /** x^(n-1) in the field. */
  function Rcon(n: nat): bv8
    requires n >= 1
  {
    if n == 1 then 1 else XTime(Rcon(n - 1))
  }

  /** Word i of the expanded key. */
  function W(key: seq<bv8>, i: nat): bv32
    requires ValidKey(key)
  {
    var nk := |key| / 4;
    if i < nk then KeyWord(key, i)
    else
      var temp := W(key, i - 1);
      var mixed := if i % nk == 0 then Xor(SubWord(RotWord(temp)), Pack(Column(Rcon(i / nk), 0, 0, 0)))
                   else if nk > 6 && i % nk == 4 then SubWord(temp)
                   else temp;
      Xor(W(key, i - nk), mixed)
  }

  /** Word `j` of window `b`, as the loop computes it from the previous window and the word before. */
  lemma WindowWord(key: seq<bv8>, b: nat, j: nat)
    requires ValidKey(key) && b >= 1 && j < |key| / 4
    ensures var nk := |key| / 4; var i := b * nk + j;
            i >= nk &&
            W(key, i) == Xor(W(key, i - nk),
                             if j == 0 then Xor(SubWord(RotWord(W(key, i - 1))), Pack(Column(Rcon(b), 0, 0, 0)))
                             else if nk == 8 && j == 4 then SubWord(W(key, i - 1))
                             else W(key, i - 1))
  {
    hide Xor, SubWord, RotWord, Pack, Rcon, KeyWord;
    WindowNumber(|key| / 4, b, j);
  }

  lemma WindowNumber(nk: nat, b: nat, j: nat)
    requires nk == 4 || nk == 6 || nk == 8
    requires b >= 1 && j < nk
    ensures var i := b * nk + j; i >= nk && i / nk == b && i % nk == j
  {
    if nk == 4 {} else if nk == 6 {} else {}
  }

  // ----- the tool's round constants -----

  /** The thirty tabulated round constants. */
  function RconEntry(n: nat): bv8
    requires n < 30
  {
    if n < 5 then
      if n == 0 then 0x01 else if n == 1 then 0x02 else if n == 2 then 0x04 else if n == 3 then 0x08 else 0x10
    else if n < 10 then
      if n == 5 then 0x20 else if n == 6 then 0x40 else if n == 7 then 0x80 else if n == 8 then 0x1b else 0x36
    else if n < 15 then
      if n == 10 then 0x6c else if n == 11 then 0xd8 else if n == 12 then 0xab else if n == 13 then 0x4d else 0x9a
    else if n < 20 then
      if n == 15 then 0x2f else if n == 16 then 0x5e else if n == 17 then 0xbc else if n == 18 then 0x63 else 0xc6
    else if n < 25 then
      if n == 20 then 0x97 else if n == 21 then 0x35 else if n == 22 then 0x6a else if n == 23 then 0xd4 else 0xb3
    else
      if n == 25 then 0x7d else if n == 26 then 0xfa else if n == 27 then 0xef else if n == 28 then 0xc5 else 0x91
  }

  lemma RconEntryStep(n: nat)
    requires 1 <= n < 30
    ensures RconEntry(n) == XTime(RconEntry(n - 1))
  {
  }

  lemma RconEntryFirst()
    ensures RconEntry(0) == 1
  {
  }

  /** The tabulated constants are the powers of x. */
  lemma {:induction false} RconEntries(n: nat)
    requires n < 30
    ensures RconEntry(n) == Rcon(n + 1)
  {
    hide RconEntry, XTime;
    if n > 0 {
      RconEntries(n - 1);
      RconEntryStep(n);
    } else {
      RconEntryFirst();
    }
  }

  // ----- the words the loop writes -----

  /** The rotated, substituted word and the round constant, shifted into place. */
  function RotSubRcon(t: bv32, rcon: bv8): bv32 {
    ((S(Byte1(t)) as bv32) << 24) ^ ((S(Byte2(t)) as bv32) << 16) ^ ((S(Byte3(t)) as bv32) << 8) ^
    (S(Byte0(t)) as bv32) ^ ((rcon as bv32) << 24)
  }

  /** The substituted word, built from its low byte up. */
  function SubShift(t: bv32): bv32 {
    (S(Byte3(t)) as bv32) ^ ((S(Byte2(t)) as bv32) << 8) ^ ((S(Byte1(t)) as bv32) << 16) ^
    ((S(Byte0(t)) as bv32) << 24)
  }

  lemma ShiftedBytes(a: bv8, b: bv8, c: bv8, d: bv8, r: bv8)
    ensures ((a as bv32) << 24) ^ ((b as bv32) << 16) ^ ((c as bv32) << 8) ^ (d as bv32) ^ ((r as bv32) << 24)
         == Xor(Pack(Column(a, b, c, d)), Pack(Column(r, 0, 0, 0)))
    ensures (d as bv32) ^ ((c as bv32) << 8) ^ ((b as bv32) << 16) ^ ((a as bv32) << 24)
         == Pack(Column(a, b, c, d))
  {
  }

  lemma ShiftedWords(t: bv32, rcon: bv8)
    ensures RotSubRcon(t, rcon) == Xor(SubWord(RotWord(t)), Pack(Column(rcon, 0, 0, 0)))
    ensures SubShift(t) == SubWord(t)
  {
    hide S, Pack, Byte0, Byte1, Byte2, Byte3, Xor;
    var c := Unpack(t);
    UnpackPack(Column(c.b1, c.b2, c.b3, c.b0));
    ShiftedBytes(S(c.b1), S(c.b2), S(c.b3), S(c.b0), rcon);
    ShiftedBytes(S(c.b0), S(c.b1), S(c.b2), S(c.b3), rcon);
  }

  // ----- the loops -----

  /** The window holds words b*KC .. b*KC+KC-1 of the expanded key. */
  ghost predicate IsWindow(key: seq<bv8>, b: nat, tk: seq<bv32>)
    requires ValidKey(key)
  {
    |tk| == |key| / 4 && forall j :: 0 <= j < |tk| ==> tk[j] == W(key, b * (|key| / 4) + j)
  }

  /** Words `from .. to-1` of the window are those of window b, the others still those of window b-1. */
  ghost predicate PartWindow(key: seq<bv8>, b: nat, tk: seq<bv32>, n: nat)
    requires ValidKey(key) && b >= 1
  {
    var nk := |key| / 4;
    && |tk| == nk && n <= nk
    && (forall j :: 0 <= j < n ==> tk[j] == W(key, b * nk + j))
    && (forall j :: n <= j < nk ==> tk[j] == W(key, (b - 1) * nk + j))
  }

  lemma NextWord(key: seq<bv8>, b: nat, tk: seq<bv32>, n: nat)
    requires ValidKey(key) && b >= 1 && PartWindow(key, b, tk, n) && n < |key| / 4
    ensures var nk := |key| / 4;
            var before := tk[if n == 0 then nk - 1 else n - 1];
            var w := if n == 0 then Xor(SubWord(RotWord(before)), Pack(Column(Rcon(b), 0, 0, 0)))
                     else if nk == 8 && n == 4 then SubWord(before)
                     else before;
            PartWindow(key, b, tk[n := Xor(tk[n], w)], n + 1)
  {
    hide W, Xor, SubWord, RotWord, Pack, Rcon;
    var nk := |key| / 4;
    WindowWord(key, b, n);
    assert b * nk + n - nk == (b - 1) * nk + n;
    assert b * nk - 1 == (b - 1) * nk + (nk - 1);
  }

  /** One pass of the expansion loop: the window moves on by KC words, in place. */
  method NextWindow(key: seq<bv8>, ghost b: nat, window: seq<bv32>, rcon: bv8) returns (tk: seq<bv32>)
    requires ValidKey(key) && b >= 1 && rcon == Rcon(b)
    requires IsWindow(key, b - 1, window)
    ensures IsWindow(key, b, tk)
  {
    hide W, Xor, SubWord, RotWord, Pack, Rcon, RotSubRcon, SubShift;
    var kc := |key| / 4;
    tk := window;
    ShiftedWords(tk[kc - 1], rcon);
    NextWord(key, b, tk, 0);
    tk := tk[0 := Xor(tk[0], RotSubRcon(tk[kc - 1], rcon))];
    if kc != 8 {
      for i := 1 to kc
        invariant PartWindow(key, b, tk, i)
      {
        NextWord(key, b, tk, i);
        tk := tk[i := Xor(tk[i], tk[i - 1])];
      }
    } else {
      for i := 1 to kc / 2
        invariant PartWindow(key, b, tk, i)
      {
        NextWord(key, b, tk, i);
        tk := tk[i := Xor(tk[i], tk[i - 1])];
      }
      ShiftedWords(tk[kc / 2 - 1], rcon);
      NextWord(key, b, tk, 4);
      tk := tk[kc / 2 := Xor(tk[kc / 2], SubShift(tk[kc / 2 - 1]))];
      for i := kc / 2 + 1 to kc
        invariant PartWindow(key, b, tk, i)
      {
        NextWord(key, b, tk, i);
        tk := tk[i := Xor(tk[i], tk[i - 1])];
      }
    }
  }

  type Rows = seq<seq<bv32>>

  ghost predicate Shape(m: Rows, rounds: nat) {
    |m| == rounds + 1 && forall r :: 0 <= r < |m| ==> |m[r]| == 4
  }

  /** The first `t` expanded words are in `ke` row by row, and in `kd` with the rows reversed. */
  ghost predicate Filled(key: seq<bv8>, ke: Rows, kd: Rows, t: nat)
    requires ValidKey(key)
  {
    var rounds := RoundCount(key);
    && Shape(ke, rounds) && Shape(kd, rounds)
    && (forall r, c :: 0 <= r <= rounds && 0 <= c < 4 && 4 * r + c < t ==> ke[r][c] == W(key, 4 * r + c))
    && (forall r, c :: 0 <= r <= rounds && 0 <= c < 4 && 4 * (rounds - r) + c < t ==>
          kd[r][c] == W(key, 4 * (rounds - r) + c))
  }

  method Store(key: seq<bv8>, ke: Rows, kd: Rows, t: nat, w: bv32) returns (ke': Rows, kd': Rows)
    requires ValidKey(key) && Filled(key, ke, kd, t) && t < 4 * (RoundCount(key) + 1)
    requires w == W(key, t)
    ensures Filled(key, ke', kd', t + 1)
  {
    hide W;
    var rounds := RoundCount(key);
    ke' := ke[t / 4 := ke[t / 4][t % 4 := w]];
    var q := rounds - t / 4;
    kd' := kd[q := kd[q][t % 4 := w]];
  }

  datatype Keys = Keys(ke: Rows, kd: Rows)

  /** What both schedules must hold: section 5.2 forwards, section 5.3.5 backwards. */
  ghost predicate Expanded(key: seq<bv8>, k: Keys)
    requires ValidKey(key)
  {
    var rounds := RoundCount(key);
    && Shape(k.ke, rounds) && Shape(k.kd, rounds)
    && (forall r, c :: 0 <= r <= rounds && 0 <= c < 4 ==> k.ke[r][c] == W(key, 4 * r + c))
    && (forall r, c :: 0 <= r <= rounds && 0 <= c < 4 ==>
          k.kd[r][c] == (var w := W(key, 4 * (rounds - r) + c);
                         if 0 < r < rounds then Pack(InvMixColumn(Unpack(w))) else w))
  }

  /** The constructor of the cipher object: both schedules, or an exception for another key length. */
  method ExpandKey(key: seq<bv8>) returns (r: Result<Keys>)
    ensures r.Raised? <==> !ValidKey(key)
    ensures r.Ok? ==> Expanded(key, r.value)
    ensures r.Ok? ==> |r.value.ke| == |r.value.kd| == |key| / 4 + 7
  {
    hide W, Pack, InvMixColumn, Unpack, Rcon, Expanded, KeyWord;
    if !ValidKey(key) {
      return Raised;
    }
    var rounds := RoundCount(key);
    var ke: Rows := seq(rounds + 1, _ => [0, 0, 0, 0]);
    var kd: Rows := seq(rounds + 1, _ => [0, 0, 0, 0]);
    var count := (rounds + 1) * 4;
    var kc := |key| / 4;
    var tk: seq<bv32> := seq(kc, i requires 0 <= i < kc => KeyWord(key, i));
    FirstWindow(key, tk);
    var i := 0;
    while i < kc
      invariant 0 <= i <= kc && Filled(key, ke, kd, i)
    {
      ke, kd := Store(key, ke, kd, i, tk[i]);
      i := i + 1;
    }
    var b := 0;
    var t := kc;
    while t < count
      invariant kc <= t <= count && b * kc < count
      invariant t < count ==> t == (b + 1) * kc
      invariant IsWindow(key, b, tk) && Filled(key, ke, kd, t)
      decreases count - t
    {
      WindowCount(key, b);
      RconEntries(b);
      tk := NextWindow(key, b + 1, tk, RconEntry(b));
      b := b + 1;
      var j := 0;
      while j < kc && t < count
        invariant 0 <= j <= kc && t == b * kc + j && t <= count
        invariant Filled(key, ke, kd, t)
      {
        ke, kd := Store(key, ke, kd, t, tk[j]);
        j := j + 1;
        t := t + 1;
      }
    }
    kd := InvertKeys(key, ke, kd);
    r := Ok(Keys(ke, kd));
    ScheduleLength(key, r.value);
  }

  /** Ten, twelve or fourteen rounds, as section 5 has it, and one key more. */
  lemma ScheduleLength(key: seq<bv8>, k: Keys)
    requires ValidKey(key) && Expanded(key, k)
    ensures |k.ke| == |k.kd| == |key| / 4 + 7
  {
    hide W;
  }

  lemma WindowCount(key: seq<bv8>, b: nat)
    requires ValidKey(key) && (b + 1) * (|key| / 4) < 4 * (RoundCount(key) + 1)
    ensures b < 10
  {
    var kc := |key| / 4;
    if kc == 4 {} else if kc == 6 {} else {}
  }

  lemma FirstWindow(key: seq<bv8>, tk: seq<bv32>)
    requires ValidKey(key) && |tk| == |key| / 4
    requires forall i :: 0 <= i < |tk| ==> tk[i] == KeyWord(key, i)
    ensures IsWindow(key, 0, tk)
  {
  }

  /** The last loop of the constructor: the inner rows of `kd` go through the U tables. */
  method InvertKeys(key: seq<bv8>, ke: Rows, kd: Rows) returns (kd': Rows)
    requires ValidKey(key) && Filled(key, ke, kd, 4 * (RoundCount(key) + 1))
    ensures Expanded(key, Keys(ke, kd'))
  {
    hide W, Pack, InvMixColumn, Unpack, KeyTableWord;
    var rounds := RoundCount(key);
    kd' := kd;
    for r := 1 to rounds
      invariant Shape(kd', rounds)
      invariant forall q, c :: 0 <= q <= rounds && 0 <= c < 4 ==>
        kd'[q][c] == if 0 < q < r then Pack(InvMixColumn(Unpack(kd[q][c]))) else kd[q][c]
    {
      for j := 0 to 4
        invariant Shape(kd', rounds)
        invariant forall q, c :: 0 <= q <= rounds && 0 <= c < 4 ==>
          kd'[q][c] == if 0 < q < r || (q == r && c < j) then Pack(InvMixColumn(Unpack(kd[q][c]))) else kd[q][c]
      {
        var tt := kd'[r][j];
        KeyTableColumn(tt);
        PackUnpack(KeyTableWord(tt));
        kd' := kd'[r := kd'[r][j := KeyTableWord(tt)]];
      }
    }
  }
}

/**
 The initial user stack: a printer that grows downward through one page, and the reader that walks
 it upward again. A memory cell is one byte, written as a character; words are little-endian.
 */
module UserStack {

  import opened CStrings

  const PAGE := 4096
  const TOP := PAGE - 10 * 8
  const WORD := 0x1_0000_0000_0000_0000

  // ----- words -----

  function Pow256(n: nat): nat { if n == 0 then 1 else 256 * Pow256(n - 1) }

  function Encode(x: int, n: nat): (s: string)
    ensures |s| == n
    decreases n
  {
    if n == 0 then [] else [(x % 256) as char] + Encode(x / 256, n - 1)
  }

  function Decode(s: string): nat {
    if s == [] then 0 else s[0] as int + 256 * Decode(s[1..])
  }

  lemma {:induction false} DecodeEncode(x: int, n: nat)
    requires 0 <= x < Pow256(n)
    ensures Decode(Encode(x, n)) == x
  {
    if n > 0 {
      DecodeEncode(x / 256, n - 1);
    }
  }

  lemma WordFits(x: int)
    requires 0 <= x < WORD
    ensures Decode(Encode(x, 8)) == x
  {
    assert Pow256(8) == WORD by {
      assert Pow256(4) == 0x1_0000_0000;
    }
    DecodeEncode(x, 8);
  }

  /** A word of eight bytes has the lowest byte first. */
  lemma WordBytes(s: string)
    requires |s| == 8
    ensures Decode(s) ==
      s[0] as int + 0x100 * s[1] as int + 0x1_0000 * s[2] as int + 0x100_0000 * s[3] as int
      + 0x1_0000_0000 * s[4] as int + 0x100_0000_0000 * s[5] as int
      + 0x1_0000_0000_0000 * s[6] as int + 0x100_0000_0000_0000 * s[7] as int
  {
    DecodeTwo(s);
    DecodeTwo(s[2..]);
    DecodeTwo(s[4..]);
    DecodeTwo(s[6..]);
    assert s[2..][2..] == s[4..] && s[4..][2..] == s[6..] && s[6..][2..] == [];
  }

  lemma DecodeTwo(s: string)
    requires |s| >= 2
    ensures Decode(s) == s[0] as int + 0x100 * s[1] as int + 0x1_0000 * Decode(s[2..])
  {
    assert s[1..][1..] == s[2..];
  }

  /** The word stored at offset `o`. */
  function WordAt(mem: string, o: nat): nat
    requires o + 8 <= |mem|
  {
    Decode(mem[o..o + 8])
  }

  /** A terminated string starts at offset `o`. */
  predicate StringAt(mem: string, o: int, s: string) {
    0 <= o && o + |s| < |mem| && mem[o..o + |s|] == s && mem[o + |s|] == '\0'
  }

  lemma {:induction false} EncodeZero(n: nat)
    ensures Encode(0, n) == Zeros(n)
  {
    if n > 0 {
      EncodeZero(n - 1);
    }
  }

  // ----- what the page must hold -----

  datatype Aux = Aux(id: int, value: int)

  /** What the loader reports about the program, and where the random bytes are. */
  datatype Program = Program(phdr: int, phnum: int, entry: int, random: int)

  const FILENAME := "busybox"

  const INVOCATION := "INVOCATION_ID=" + "e9500a871cf044d9" + "886a157f53826684"

  const ENV: seq<string> := [
    "SHELL=ash", "PWD=/", "HOME=/", "USER=root", "MOTD_SHOWN=pam", "LANG=C.UTF-8",
    INVOCATION, "TERM=vt220", "SHLVL=2",
    "JOURNAL_STREAM=8:9265", "PATH=/", "OLDPWD=/", "_=busybox"]

  /** The auxiliary vector in the order it is pushed; the null entry goes first and ends up last. */
  function AuxTable(p: Program, filename: int): (aux: seq<Aux>)
    ensures |aux| == 23
  {
    [Aux(0, 0), Aux(0x28, 0), Aux(0x29, 0), Aux(0x2a, 0), Aux(0x2b, 0), Aux(0x2c, 0), Aux(0x2d, 0),
     Aux(3, p.phdr), Aux(4, 56), Aux(5, p.phnum), Aux(6, 0x1000), Aux(7, 0), Aux(8, 0), Aux(9, p.entry),
     Aux(11, 0), Aux(12, 0), Aux(13, 0), Aux(14, 0), Aux(16, 0x112d), Aux(17, 64), Aux(25, p.random),
     Aux(31, filename), Aux(33, 0x3_0000_0000)]
  }

  /** The value of the first entry with an id, or -1. */
  function Lookup(aux: seq<Aux>, id: int): int {
    if aux == [] then -1 else if aux[0].id == id then aux[0].value else Lookup(aux[1..], id)
  }

  /** What a program finds out from its auxiliary vector, under the numbers of the System V ABI. */
  ghost predicate Describes(aux: seq<Aux>, p: Program, filename: int) {
    && Lookup(aux, 3) == p.phdr && Lookup(aux, 4) == 56 && Lookup(aux, 5) == p.phnum && Lookup(aux, 6) == PAGE
    && Lookup(aux, 7) == 0 && Lookup(aux, 8) == 0 && Lookup(aux, 9) == p.entry
    && Lookup(aux, 11) == 0 && Lookup(aux, 12) == 0 && Lookup(aux, 13) == 0 && Lookup(aux, 14) == 0
    && Lookup(aux, 16) == 0x112d && Lookup(aux, 17) == 64 && Lookup(aux, 25) == p.random
    && Lookup(aux, 31) == filename && Lookup(aux, 33) == 0x3_0000_0000
    && forall id :: 0x28 <= id <= 0x2d ==> Lookup(aux, id) == 0
  }

  function Reverse<T>(s: seq<T>): (r: seq<T>)
    ensures |r| == |s|
    ensures forall i :: 0 <= i < |s| ==> r[i] == s[|s| - 1 - i]
  {
    seq(|s|, i requires 0 <= i < |s| => s[|s| - 1 - i])
  }

  /** The id of entry number `j`, as it is pushed. */
  function IdAt(j: int): int {
    if j == 0 then 0 else if j <= 6 then 0x27 + j else if j <= 13 then j - 4 else if j <= 17 then j - 3
    else if j <= 19 then j - 2 else if j == 20 then 25 else if j == 21 then 31 else 33
  }

  lemma AuxIds(p: Program, filename: int, j: nat)
    requires j < 23
    ensures AuxTable(p, filename)[j].id == IdAt(j)
  {
  }

  lemma {:induction false} LookupAt(aux: seq<Aux>, i: nat)
    requires i < |aux| && forall j :: 0 <= j < i ==> aux[j].id != aux[i].id
    ensures Lookup(aux, aux[i].id) == aux[i].value
  {
    if i > 0 {
      LookupAt(aux[1..], i - 1);
    }
  }

  /** Every entry is found, under its own id. */
  lemma LookupPushed(p: Program, filename: int, k: nat)
    requires 1 <= k < 23
    ensures var aux := AuxTable(p, filename); Lookup(Reverse(aux)[..22], aux[k].id) == aux[k].value
  {
    hide AuxTable, Lookup;
    var aux := AuxTable(p, filename);
    var v := Reverse(aux)[..22];
    forall j | 0 <= j < 22 ensures v[j].id == IdAt(22 - j) {
      AuxIds(p, filename, 22 - j);
    }
    LookupAt(v, 22 - k);
  }

  /** The vector, read from below without the null entry that ends it, tells the program what it has to. */
  lemma AuxDescribes(p: Program, filename: int)
    ensures Describes(Reverse(AuxTable(p, filename))[..22], p, filename)
  {
    hide Lookup;
    var aux := AuxTable(p, filename);
    forall k | 1 <= k < 23 ensures Lookup(Reverse(aux)[..22], aux[k].id) == aux[k].value {
      LookupPushed(p, filename, k);
    }
    assert aux[7].id == 3 && aux[8].id == 4 && aux[9].id == 5 && aux[10].id == 6 && aux[11].id == 7;
    assert aux[12].id == 8 && aux[13].id == 9 && aux[14].id == 11 && aux[15].id == 12 && aux[16].id == 13;
    assert aux[17].id == 14 && aux[18].id == 16 && aux[19].id == 17 && aux[20].id == 25 && aux[21].id == 31;
    forall id | 0x28 <= id <= 0x2d ensures Lookup(Reverse(aux)[..22], id) == 0 {
      assert aux[id - 0x27] == Aux(id, 0);
    }
    assert aux[22].id == 33;
  }

  /** From offset `o` up: the count, the argument pointers, 0, the environment pointers, 0, the auxiliary pairs. */
  ghost predicate ReadsAs(mem: string, base: nat, o: int, args: seq<string>, env: seq<string>, aux: seq<Aux>) {
    && Pointers(mem, base, o + 8, args) && Pointers(mem, base, o + 16 + 8 * |args|, env)
    && 0 <= o && o + 24 + 8 * |args| + 8 * |env| + 16 * |aux| <= |mem|
    && WordAt(mem, o) == |args|
    && WordAt(mem, o + 8 + 8 * |args|) == 0
    && WordAt(mem, o + 16 + 8 * |args| + 8 * |env|) == 0
    && Pairs(mem, o + 24 + 8 * |args| + 8 * |env|, aux)
  }

  /** Nonzero pointers into the page, one for each string. */
  ghost predicate Pointers(mem: string, base: nat, o: int, strings: seq<string>) {
    && 0 <= o && o + 8 * |strings| <= |mem|
    && forall i :: 0 <= i < |strings| ==>
         WordAt(mem, o + 8 * i) != 0 && StringAt(mem, WordAt(mem, o + 8 * i) - base, strings[i])
  }

  ghost predicate Pairs(mem: string, o: int, aux: seq<Aux>) {
    && 0 <= o && o + 16 * |aux| <= |mem|
    && forall i :: 0 <= i < |aux| ==>
         WordAt(mem, o + 16 * i) == aux[i].id && WordAt(mem, o + 16 * i + 8) == aux[i].value
  }

  // ----- the layout -----

  /** Terminated strings pushed one after the other, each below the one before. */
  function Strings(list: seq<string>): string {
    if list == [] then [] else list[|list| - 1] + ['\0'] + Strings(list[..|list| - 1])
  }

  /** Words pushed one after the other. */
  function Words(ws: seq<int>): (s: string)
    ensures |s| == 8 * |ws|
  {
    if ws == [] then [] else Encode(ws[|ws| - 1], 8) + Words(ws[..|ws| - 1])
  }

  /** The words of the auxiliary vector: of each pair the value is pushed first, then the id. */
  function AuxWords(aux: seq<Aux>): (ws: seq<int>)
    ensures |ws| == 2 * |aux|
  {
    if aux == [] then [] else AuxWords(aux[..|aux| - 1]) + [aux[|aux| - 1].value, aux[|aux| - 1].id]
  }

  /** The address of string number `k`. */
  function Address(base: nat, list: seq<string>, k: nat): int
    requires k < |list|
  {
    base + TOP - |Strings(list[..k + 1])|
  }

  function Addresses(base: nat, list: seq<string>, from: nat, n: nat): (r: seq<int>)
    requires from + n <= |list|
    ensures |r| == n
    ensures forall i :: 0 <= i < n ==> r[i] == Address(base, list, from + i)
  {
    seq(n, i requires 0 <= i < n => Address(base, list, from + i))
  }

  /** All the strings and the alignment below them. */
  function StringPart(list: seq<string>): string {
    var s := Strings(list);
    Zeros((TOP - |s|) % 16) + s
  }

  /** The strings in the order they are copied. */
  function AllStrings(env: seq<string>, argv: seq<string>): seq<string> { [FILENAME] + env + argv }

  function WordCount(env: seq<string>, argv: seq<string>, aux: nat): nat { 2 * aux + 1 + |env| + 1 + |argv| + 2 }

  /** Everything fits below the top of the page. */
  predicate Fits(env: seq<string>, argv: seq<string>, aux: nat) {
    |StringPart(AllStrings(env, argv))| + 8 * WordCount(env, argv, aux) <= TOP
  }

  /** All words in the order they are pushed. */
  function WordList(base: nat, env: seq<string>, argv: seq<string>, aux: seq<Aux>): (ws: seq<int>)
    ensures |ws| == WordCount(env, argv, |aux|)
  {
    var list := AllStrings(env, argv);
    AuxWords(aux) + [0] + Addresses(base, list, 1, |env|) + [0]
    + Reverse(Addresses(base, list, 1 + |env|, |argv|)) + [Address(base, list, 0), |argv| + 1]
  }

  function Layout(base: nat, env: seq<string>, argv: seq<string>, aux: seq<Aux>): string {
    Words(WordList(base, env, argv, aux)) + StringPart(AllStrings(env, argv))
  }

  /** The page around a content that ends at the top. */
  function PageOf(content: string): (mem: string)
    requires |content| <= TOP
    ensures |mem| == PAGE
  {
    Zeros(TOP - |content|) + content + Zeros(PAGE - TOP)
  }

  // ----- reading it back -----

  /** Pushed later means found lower: word k from below is the k-th last. */
  lemma {:induction false} WordsRead(ws: seq<int>, rest: string, k: nat)
    requires k < |ws| && forall i :: 0 <= i < |ws| ==> 0 <= ws[i] < WORD
    ensures Decode((Words(ws) + rest)[8 * k..8 * k + 8]) == ws[|ws| - 1 - k]
  {
    hide Encode, Decode;
    var n := |ws| - 1;
    var front := ws[..n];
    var s := Words(ws) + rest;
    assert s == Encode(ws[n], 8) + (Words(front) + rest);
    if k == 0 {
      WordFits(ws[n]);
      assert s[0..8] == Encode(ws[n], 8);
    } else {
      WordsRead(front, rest, k - 1);
      assert s[8 * k..8 * k + 8] == (Words(front) + rest)[8 * (k - 1)..8 * (k - 1) + 8];
    }
  }

  /** A pushed string is still there, at its address, whatever is pushed below it. */
  lemma {:induction false} StringsKeep(list: seq<string>, k: nat)
    requires k < |list|
    ensures var a, b := |Strings(list)|, |Strings(list[..k + 1])|;
            && |list[k]| < b <= a
            && Strings(list)[a - b..a - b + |list[k]|] == list[k]
            && Strings(list)[a - b + |list[k]|] == '\0'
  {
    var n := |list| - 1;
    if k == n {
      assert list[..k + 1] == list;
    } else {
      StringsKeep(list[..n], k);
      assert list[..n][..k + 1] == list[..k + 1];
      assert Strings(list) == (list[n] + ['\0']) + Strings(list[..n]);
    }
  }

  ghost predicate Placed(base: nat) { 0 < base && base % PAGE == 0 && base + PAGE <= WORD }

  ghost predicate InWord(aux: seq<Aux>) {
    forall i :: 0 <= i < |aux| ==> 0 <= aux[i].id < WORD && 0 <= aux[i].value < WORD
  }

  lemma {:induction false} AuxWordsAt(aux: seq<Aux>, i: nat)
    requires i < |aux|
    ensures AuxWords(aux)[2 * i] == aux[i].value && AuxWords(aux)[2 * i + 1] == aux[i].id
  {
    if i < |aux| - 1 {
      AuxWordsAt(aux[..|aux| - 1], i);
    }
  }

  /** Every word pushed is a word. */
  lemma WordsInRange(base: nat, env: seq<string>, argv: seq<string>, aux: seq<Aux>)
    requires Placed(base) && InWord(aux) && Fits(env, argv, |aux|)
    ensures var ws := WordList(base, env, argv, aux); forall i :: 0 <= i < |ws| ==> 0 <= ws[i] < WORD
  {
    hide Strings, Words, AuxWords, Address;
    var list := AllStrings(env, argv);
    forall k | 0 <= k < |list|
      ensures base <= Address(base, list, k) < base + PAGE
    {
      AddressInPage(base, list, k);
    }
    forall i | 0 <= i < 2 * |aux|
      ensures 0 <= AuxWords(aux)[i] < WORD
    {
      AuxWordsAt(aux, i / 2);
    }
  }

  lemma AddressInPage(base: nat, list: seq<string>, k: nat)
    requires k < |list| && |StringPart(list)| <= TOP
    ensures base <= Address(base, list, k) < base + TOP
  {
    hide Strings;
    StringsKeep(list, k);
  }

  /** What the page says at a string's address. */
  lemma StringInPage(base: nat, words: string, list: seq<string>, k: nat)
    requires k < |list| && |words| + |StringPart(list)| <= TOP
    ensures StringAt(PageOf(words + StringPart(list)), Address(base, list, k) - base, list[k])
  {
    hide Strings;
    StringsKeep(list, k);
    var s := Strings(list);
    var d := |s| - |Strings(list[..k + 1])|;
    var front := words + Zeros((TOP - |s|) % 16);
    assert words + StringPart(list) == front + s;
    TailOfPage(front, s, d, d + |list[k]| + 1);
    assert s[d..d + |list[k]| + 1][..|list[k]|] == s[d..d + |list[k]|];
  }

  /** The end of the content stands at the end of the page. */
  lemma TailOfPage(front: string, s: string, from: nat, to: nat)
    requires |front + s| <= TOP && from <= to <= |s|
    ensures PageOf(front + s)[TOP - |s| + from..TOP - |s| + to] == s[from..to]
  {
    var mem := PageOf(front + s);
    assert forall i :: from <= i < to ==> mem[TOP - |s| + i] == s[i];
  }

  lemma WordInPage(ws: seq<int>, rest: string, k: nat)
    requires k < |ws| && forall i :: 0 <= i < |ws| ==> 0 <= ws[i] < WORD
    requires 8 * |ws| + |rest| <= TOP
    ensures var c := Words(ws) + rest; WordAt(PageOf(c), TOP - |c| + 8 * k) == ws[|ws| - 1 - k]
  {
    hide Words, Decode;
    WordsRead(ws, rest, k);
    var c := Words(ws) + rest;
    assert PageOf(c)[TOP - |c| + 8 * k..TOP - |c| + 8 * k + 8] == c[8 * k..8 * k + 8];
  }

  // Which word is which, counted from the last one pushed.

  lemma ArgWord(base: nat, env: seq<string>, argv: seq<string>, aux: seq<Aux>, i: nat)
    requires i <= |argv|
    ensures var ws := WordList(base, env, argv, aux);
            ws[|ws| - 2 - i] == Address(base, AllStrings(env, argv), if i == 0 then 0 else |env| + i)
  {
    hide AuxWords, Address;
  }

  lemma EnvWord(base: nat, env: seq<string>, argv: seq<string>, aux: seq<Aux>, i: nat)
    requires i < |env|
    ensures var ws := WordList(base, env, argv, aux);
            ws[|ws| - 4 - |argv| - i] == Address(base, AllStrings(env, argv), |env| - i)
  {
    hide AuxWords, Address;
  }

  lemma AuxWord(base: nat, env: seq<string>, argv: seq<string>, aux: seq<Aux>, i: nat)
    requires i < |aux|
    ensures var ws := WordList(base, env, argv, aux);
            var k := |ws| - 5 - |argv| - |env| - 2 * i;
            ws[k] == aux[|aux| - 1 - i].id && ws[k - 1] == aux[|aux| - 1 - i].value
  {
    hide AuxWords, Address;
    AuxWordsAt(aux, |aux| - 1 - i);
    var ws := WordList(base, env, argv, aux);
    assert forall j :: 0 <= j < 2 * |aux| ==> ws[j] == AuxWords(aux)[j];
  }

  lemma CountAndZeros(base: nat, env: seq<string>, argv: seq<string>, aux: seq<Aux>)
    ensures var ws := WordList(base, env, argv, aux);
            var n := |ws|;
            ws[n - 1] == |argv| + 1 && ws[n - 3 - |argv|] == 0 && ws[n - 4 - |argv| - |env|] == 0
  {
    hide AuxWords, Address;
  }

  /** Word number k of the page, counted from below. */
  lemma PageWord(base: nat, env: seq<string>, argv: seq<string>, aux: seq<Aux>, k: nat)
    requires Placed(base) && InWord(aux) && Fits(env, argv, |aux|) && k < WordCount(env, argv, |aux|)
    ensures var c := Layout(base, env, argv, aux);
            var ws := WordList(base, env, argv, aux);
            WordAt(PageOf(c), TOP - |c| + 8 * k) == ws[|ws| - 1 - k]
  {
    hide Words, WordAt, PageOf, WordList;
    WordsInRange(base, env, argv, aux);
    WordInPage(WordList(base, env, argv, aux), StringPart(AllStrings(env, argv)), k);
  }

  /** The string number k of the page is where its address says. */
  lemma PageString(base: nat, env: seq<string>, argv: seq<string>, aux: seq<Aux>, k: nat)
    requires Placed(base) && Fits(env, argv, |aux|) && k < |AllStrings(env, argv)|
    ensures var list := AllStrings(env, argv);
            var mem := PageOf(Layout(base, env, argv, aux));
            Address(base, list, k) > 0 && StringAt(mem, Address(base, list, k) - base, list[k])
  {
    hide Words, PageOf, WordList, Strings;
    var list := AllStrings(env, argv);
    StringInPage(base, Words(WordList(base, env, argv, aux)), list, k);
    AddressInPage(base, list, k);
  }

  lemma ReadsArgs(base: nat, env: seq<string>, argv: seq<string>, aux: seq<Aux>)
    requires Placed(base) && InWord(aux) && Fits(env, argv, |aux|)
    ensures var c := Layout(base, env, argv, aux);
            Pointers(PageOf(c), base, TOP - |c| + 8, [FILENAME] + argv)
  {
    hide WordAt, PageOf, WordList, Layout, StringPart, Address, StringAt;
    var c := Layout(base, env, argv, aux);
    LayoutSize(base, env, argv, aux);
    var mem, o, args := PageOf(c), TOP - |c|, [FILENAME] + argv;
    forall i | 0 <= i < |args|
      ensures WordAt(mem, o + 8 + 8 * i) != 0 && StringAt(mem, WordAt(mem, o + 8 + 8 * i) - base, args[i])
    {
      assert o + 8 + 8 * i == o + 8 * (1 + i);
      PageWord(base, env, argv, aux, 1 + i);
      ArgWord(base, env, argv, aux, i);
      PageString(base, env, argv, aux, if i == 0 then 0 else |env| + i);
    }
  }

  lemma ReadsEnv(base: nat, env: seq<string>, argv: seq<string>, aux: seq<Aux>)
    requires Placed(base) && InWord(aux) && Fits(env, argv, |aux|)
    ensures var c := Layout(base, env, argv, aux);
            Pointers(PageOf(c), base, TOP - |c| + 24 + 8 * |argv|, Reverse(env))
  {
    hide WordAt, PageOf, WordList, Layout, StringPart, Address, StringAt;
    var c := Layout(base, env, argv, aux);
    LayoutSize(base, env, argv, aux);
    var mem, o := PageOf(c), TOP - |c| + 24 + 8 * |argv|;
    forall i | 0 <= i < |env|
      ensures WordAt(mem, o + 8 * i) != 0 && StringAt(mem, WordAt(mem, o + 8 * i) - base, Reverse(env)[i])
    {
      assert o + 8 * i == TOP - |c| + 8 * (3 + |argv| + i);
      PageWord(base, env, argv, aux, 3 + |argv| + i);
      EnvWord(base, env, argv, aux, i);
      PageString(base, env, argv, aux, |env| - i);
    }
  }

  lemma ReadsAux(base: nat, env: seq<string>, argv: seq<string>, aux: seq<Aux>)
    requires Placed(base) && InWord(aux) && Fits(env, argv, |aux|)
    ensures var c := Layout(base, env, argv, aux);
            Pairs(PageOf(c), TOP - |c| + 32 + 8 * |argv| + 8 * |env|, Reverse(aux))
  {
    hide WordAt, PageOf, WordList, Layout, StringPart;
    var c := Layout(base, env, argv, aux);
    LayoutSize(base, env, argv, aux);
    var mem, o := PageOf(c), TOP - |c| + 32 + 8 * |argv| + 8 * |env|;
    forall i | 0 <= i < |aux|
      ensures WordAt(mem, o + 16 * i) == Reverse(aux)[i].id && WordAt(mem, o + 16 * i + 8) == Reverse(aux)[i].value
    {
      var k := 4 + |argv| + |env| + 2 * i;
      assert o + 16 * i == TOP - |c| + 8 * k && o + 16 * i + 8 == TOP - |c| + 8 * (k + 1);
      PageWord(base, env, argv, aux, k);
      PageWord(base, env, argv, aux, k + 1);
      AuxWord(base, env, argv, aux, i);
    }
  }

  lemma LayoutSize(base: nat, env: seq<string>, argv: seq<string>, aux: seq<Aux>)
    requires Fits(env, argv, |aux|)
    ensures 8 * WordCount(env, argv, |aux|) <= |Layout(base, env, argv, aux)| <= TOP
  {
  }

  /** The walk recovers every argument in order, the environment reversed, and the auxiliary vector reversed. */
  lemma LayoutReadsBack(base: nat, env: seq<string>, argv: seq<string>, aux: seq<Aux>)
    requires Placed(base) && InWord(aux) && Fits(env, argv, |aux|)
    ensures var c := Layout(base, env, argv, aux);
            |c| <= TOP && ReadsAs(PageOf(c), base, TOP - |c|, [FILENAME] + argv, Reverse(env), Reverse(aux))
  {
    hide WordAt, PageOf, WordList, Layout, StringPart, Pointers, Pairs;
    var c := Layout(base, env, argv, aux);
    LayoutSize(base, env, argv, aux);
    ReadsArgs(base, env, argv, aux);
    ReadsEnv(base, env, argv, aux);
    ReadsAux(base, env, argv, aux);
    CountAndZeros(base, env, argv, aux);
    var o, n, e := TOP - |c|, |argv|, |env|;
    PageWord(base, env, argv, aux, 0);
    PageWord(base, env, argv, aux, 2 + n);
    PageWord(base, env, argv, aux, 3 + n + e);
    assert o + 8 * (2 + n) == o + 8 + 8 * (n + 1);
    assert o + 8 * (3 + n + e) == o + 16 + 8 * (n + 1) + 8 * e;
  }
}

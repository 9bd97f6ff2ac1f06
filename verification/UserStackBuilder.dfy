/** The code that fills the page and the code that walks it, against the layout. */
module UserStackBuilder {
  import opened CStrings
  import opened UserStack

  class StackPage {
    const base: nat
    const page: array<char>
    var sp: int
    ghost var content: string

    /** The page holds the content pushed so far, and nothing else. */
    ghost predicate Valid()
      reads this, page
    {
      page.Length == PAGE && |content| <= TOP && page[..] == PageOf(content) && sp == base + TOP - |content|
    }

    constructor (base: nat)
      ensures Valid() && content == [] && this.base == base && fresh(page)
    {
      this.base := base;
      page := new char[PAGE](_ => '\0');
      sp := base + TOP;
      content := [];
      new;
      assert page[..] == PageOf([]);
    }

    /** Lowers the stack pointer and copies; every write stays in the page and below all earlier ones. */
    method CopyToStack(source: string)
      requires Valid() && |source| + |content| <= TOP
      modifies this`sp, this`content, page
      ensures Valid() && content == source + old(content)
    {
      hide PageOf;
      ghost var before := page[..];
      sp := sp - |source|;
      var o := sp - base;
      for i := 0 to |source|
        modifies page
        invariant forall k :: 0 <= k < PAGE ==> page[k] == if o <= k < o + i then source[k - o] else before[k]
      {
        page[o + i] := source[i];
      }
      PagePrefix(content, source, page[..]);
      content := source + content;
    }

    /** Steps over bytes that were never written: they are zero. */
    method Skip(n: nat)
      requires Valid() && n + |content| <= TOP
      modifies this`sp, this`content
      ensures Valid() && content == Zeros(n) + old(content)
    {
      sp := sp - n;
      content := Zeros(n) + content;
      assert PageOf(content) == PageOf(old(content));
    }

    /** Pushes the next word of `ws` above the strings. */
    method PutWord(v: int, ghost ws: seq<int>, ghost k: nat, ghost rest: string)
      requires Valid() && k < |ws| && v == ws[k] && content == Words(ws[..k]) + rest && 8 * |ws| + |rest| <= TOP
      modifies this`sp, this`content, page
      ensures Valid() && content == Words(ws[..k + 1]) + rest
    {
      hide Encode;
      CopyToStack(Encode(v, 8));
      WordsStep(ws, k);
      assert Encode(v, 8) + (Words(ws[..k]) + rest) == Encode(v, 8) + Words(ws[..k]) + rest;
    }

    /** A zero word is pushed by stepping over it. */
    method PutZero(ghost ws: seq<int>, ghost k: nat, ghost rest: string)
      requires Valid() && k < |ws| && ws[k] == 0 && content == Words(ws[..k]) + rest && 8 * |ws| + |rest| <= TOP
      modifies this`sp, this`content
      ensures Valid() && content == Words(ws[..k + 1]) + rest
    {
      hide Encode;
      Skip(8);
      EncodeZero(8);
      WordsStep(ws, k);
      assert Encode(0, 8) + (Words(ws[..k]) + rest) == Encode(0, 8) + Words(ws[..k]) + rest;
    }

    /** Copies the strings one by one and notes their addresses. */
    method CopyStrings(strings: seq<string>, ghost list: seq<string>, ghost from: nat) returns (addrs: seq<int>)
      requires Valid() && from + |strings| <= |list| && strings == list[from..from + |strings|]
      requires content == Strings(list[..from]) && |Strings(list)| <= TOP
      modifies this`sp, this`content, page
      ensures Valid() && content == Strings(list[..from + |strings|])
      ensures addrs == Addresses(base, list, from, |strings|)
    {
      hide Strings;
      addrs := [];
      for i := 0 to |strings|
        invariant Valid() && content == Strings(list[..from + i])
        invariant addrs == Addresses(base, list, from, i)
      {
        var k := from + i;
        StringsStep(list, k);
        StringsKeep(list, k);
        assert strings[i] == list[k];
        CopyToStack(strings[i] + ['\0']);
        addrs := addrs + [sp];
      }
    }

    /** The stack pointer is brought down to a multiple of sixteen. */
    method Align()
      requires Valid() && base % PAGE == 0 && (TOP - |content|) % 16 + |content| <= TOP
      modifies this`sp, this`content
      ensures Valid() && content == Zeros((TOP - |old(content)|) % 16) + old(content)
    {
      assert sp % 16 == (TOP - |content|) % 16 by {
        AlignLemma(base, TOP - |content|);
      }
      Skip(sp % 16);
    }

    /** Pushes the auxiliary vector: of each pair first the value, then the id. */
    method PutAux(aux: seq<Aux>, ghost ws: seq<int>, ghost rest: string)
      requires Valid() && content == rest && 2 * |aux| <= |ws| && ws[..2 * |aux|] == AuxWords(aux)
      requires 8 * |ws| + |rest| <= TOP
      modifies this`sp, this`content, page
      ensures Valid() && content == Words(ws[..2 * |aux|]) + rest
    {
      hide AuxWords, Words, PageOf;
      NoWords(ws, rest);
      for i := 0 to |aux|
        invariant Valid() && content == Words(ws[..2 * i]) + rest
      {
        AuxWordsAt(aux, i);
        assert ws[..2 * |aux|][2 * i] == ws[2 * i] && ws[..2 * |aux|][2 * i + 1] == ws[2 * i + 1];
        PutWord(aux[i].value, ws, 2 * i, rest);
        PutWord(aux[i].id, ws, 2 * i + 1, rest);
      }
    }

    /** Pushes pointers in the order of the list. */
    method PutPointers(addrs: seq<int>, ghost ws: seq<int>, ghost k: nat, ghost rest: string)
      requires Valid() && k + |addrs| <= |ws| && ws[k..k + |addrs|] == addrs
      requires content == Words(ws[..k]) + rest && 8 * |ws| + |rest| <= TOP
      modifies this`sp, this`content, page
      ensures Valid() && content == Words(ws[..k + |addrs|]) + rest
    {
      hide Words, PageOf;
      for i := 0 to |addrs|
        invariant Valid() && content == Words(ws[..k + i]) + rest
      {
        assert ws[k..k + |addrs|][i] == ws[k + i];
        PutWord(addrs[i], ws, k + i, rest);
      }
    }

    /** Copies all the strings and aligns. */
    method PrepareStrings(env: seq<string>, argv: seq<string>)
      returns (filename: int, envStrings: seq<int>, argvStrings: seq<int>)
      requires Valid() && content == [] && base % PAGE == 0 && |StringPart(AllStrings(env, argv))| <= TOP
      modifies this`sp, this`content, page
      ensures Valid() && content == StringPart(AllStrings(env, argv))
      ensures var list := AllStrings(env, argv);
              && filename == Address(base, list, 0)
              && envStrings == Addresses(base, list, 1, |env|)
              && argvStrings == Addresses(base, list, 1 + |env|, |argv|)
    {
      hide Strings, PageOf, Address;
      var list := AllStrings(env, argv);
      EmptyStrings(list);
      var first := CopyStrings([FILENAME], list, 0);
      filename := first[0];
      envStrings := CopyStrings(env, list, 1);
      argvStrings := CopyStrings(argv, list, 1 + |env|);
      assert list[..1 + |env| + |argv|] == list;
      Align();
    }

    /** Pushes all the words above the strings. */
    method PrepareWords(aux: seq<Aux>, envStrings: seq<int>, argvStrings: seq<int>, filename: int, ghost rest: string)
      requires Valid() && content == rest
      requires |rest| + 8 * (2 * |aux| + |envStrings| + |argvStrings| + 4) <= TOP
      modifies this`sp, this`content, page
      ensures Valid()
      ensures content ==
        Words(Blocks(AuxWords(aux), envStrings, Reverse(argvStrings), filename, |argvStrings| + 1)) + rest
    {
      hide Words, AuxWords, PageOf, Blocks;
      ghost var ws := Blocks(AuxWords(aux), envStrings, Reverse(argvStrings), filename, |argvStrings| + 1);
      ghost var a, e, n := 2 * |aux|, |envStrings|, |argvStrings|;
      BlockPlaces(AuxWords(aux), envStrings, Reverse(argvStrings), filename, |argvStrings| + 1);
      PutAux(aux, ws, rest);
      PutZero(ws, a, rest);
      PutPointers(envStrings, ws, a + 1, rest);
      PutZero(ws, a + 1 + e, rest);
      PutPointers(Reverse(argvStrings), ws, a + 2 + e, rest);
      PutWord(filename, ws, a + 2 + e + n, rest);
      PutWord(|argvStrings| + 1, ws, a + 3 + e + n, rest);
    }

    /** Fills the page of a new process; the stack pointer ends at the argument count. */
    method Prepare(env: seq<string>, argv: seq<string>, p: Program)
      requires Valid() && content == [] && Placed(base) && Fits(env, argv, 23)
      modifies this`sp, this`content, page
      ensures Valid()
      ensures content == Layout(base, env, argv, AuxTable(p, Address(base, AllStrings(env, argv), 0)))
      ensures (sp + 8 * WordCount(env, argv, 23)) % 16 == 0
    {
      hide StringPart, Words, AuxWords, PageOf, Address;
      var filename, envStrings, argvStrings := PrepareStrings(env, argv);
      WordsStartAligned(base, AllStrings(env, argv));
      PrepareWords(AuxTable(p, filename), envStrings, argvStrings, filename, content);
    }
  }

  lemma EmptyStrings(list: seq<string>)
    ensures Strings(list[..0]) == []
  {
  }

  // ----- the reader -----

  method ReadString(mem: array<char>, o: int, ghost s: string) returns (r: string)
    requires StringAt(mem[..], o, s) && NoNul(s)
    ensures r == s
  {
    forall k | 0 <= k < |s|
      ensures s[k] == mem[o + k] && s[k] != '\0'
    {
      assert mem[..][o..o + |s|][k] == s[k];
      assert s[k] in s;
    }
    r := [];
    var i := o;
    while mem[i] != '\0'
      invariant o <= i <= o + |s| && r == s[..i - o]
      decreases o + |s| - i
    {
      r := r + [mem[i]];
      i := i + 1;
    }
  }

  method ReadPointers(mem: array<char>, base: nat, o: int, n: nat, ghost strings: seq<string>) returns (r: seq<string>)
    requires Pointers(mem[..], base, o, strings) && n == |strings| && forall s :: s in strings ==> NoNul(s)
    ensures r == strings
  {
    hide WordAt, StringAt, NoNul;
    r := [];
    for i := 0 to n
      invariant r == strings[..i]
    {
      assert strings[i] in strings;
      var s := ReadString(mem, WordAt(mem[..], o + 8 * i) - base, strings[i]);
      r := r + [s];
    }
  }

  /** Reads pointers up to the zero word; returns where that is. */
  method ReadUntilZero(mem: array<char>, base: nat, start: int, ghost strings: seq<string>)
    returns (r: seq<string>, o: int)
    requires Pointers(mem[..], base, start, strings) && start + 8 * |strings| + 8 <= mem.Length
    requires WordAt(mem[..], start + 8 * |strings|) == 0 && forall s :: s in strings ==> NoNul(s)
    ensures r == strings && o == start + 8 * |strings|
  {
    hide WordAt, StringAt, NoNul;
    r, o := [], start;
    ghost var i := 0;
    while WordAt(mem[..], o) != 0
      invariant 0 <= i <= |strings| && o == start + 8 * i && r == strings[..i]
      decreases |strings| - i
    {
      assert strings[i] in strings;
      var s := ReadString(mem, WordAt(mem[..], o) - base, strings[i]);
      r := r + [s];
      o := o + 8;
      i := i + 1;
    }
  }

  method ReadPairs(mem: array<char>, start: int, ghost aux: seq<Aux>) returns (r: seq<Aux>)
    requires Pairs(mem[..], start, aux)
    requires aux != [] && aux[|aux| - 1].id == 0 && forall i :: 0 <= i < |aux| - 1 ==> aux[i].id != 0
    ensures r == aux[..|aux| - 1]
  {
    hide WordAt;
    r := [];
    var o := start;
    ghost var j := 0;
    while WordAt(mem[..], o) != 0
      invariant 0 <= j < |aux| && o == start + 16 * j && r == aux[..j]
      invariant WordAt(mem[..], o) == aux[j].id
      decreases |aux| - j
    {
      r := r + [Aux(WordAt(mem[..], o), WordAt(mem[..], o + 8))];
      o := o + 16;
      j := j + 1;
    }
  }

  /** The walk of the stack check: what it prints, in order. */
  method CheckStack(mem: array<char>, base: nat, st: int,
                    ghost args: seq<string>, ghost env: seq<string>, ghost aux: seq<Aux>)
    returns (argc: nat, argv: seq<string>, envp: seq<string>, auxv: seq<Aux>)
    requires ReadsAs(mem[..], base, st - base, args, env, aux)
    requires (forall s :: s in args || s in env ==> NoNul(s))
    requires aux != [] && aux[|aux| - 1].id == 0 && forall i :: 0 <= i < |aux| - 1 ==> aux[i].id != 0
    ensures argc == |args| && argv == args && envp == env && auxv == aux[..|aux| - 1]
  {
    hide WordAt, Pointers, Pairs, NoNul;
    var o := st - base;
    argc := WordAt(mem[..], o);
    argv := ReadPointers(mem, base, o + 8, argc, args);
    envp, o := ReadUntilZero(mem, base, o + 16 + 8 * argc, env);
    auxv := ReadPairs(mem, o + 8, aux);
  }

  lemma AuxTableFacts(p: Program, filename: int)
    requires 0 <= p.phdr < WORD && 0 <= p.phnum < WORD && 0 <= p.entry < WORD && 0 <= p.random < WORD
    requires 0 <= filename < WORD
    ensures var aux := AuxTable(p, filename);
            InWord(aux) && aux[0].id == 0 && forall i :: 1 <= i < 23 ==> aux[i].id != 0
  {
  }

  lemma CleanLists(env: seq<string>, argv: seq<string>)
    requires forall s :: s in argv || s in env ==> NoNul(s)
    ensures forall s :: s in [FILENAME] + argv || s in Reverse(env) ==> NoNul(s)
  {
    assert NoNul(FILENAME);
    hide NoNul;
  }

  /** Where the program's file name stands. */
  function FilenameAddress(base: nat, env: seq<string>, argv: seq<string>): int {
    Address(base, AllStrings(env, argv), 0)
  }

  /**
   A fresh page, filled and walked: the walk sees exactly the arguments, the environment and the auxiliary
   vector, and the file name entry of that points to the file name.
   */
  method PrepareAndCheck(base: nat, env: seq<string>, argv: seq<string>, p: Program)
    returns (argc: nat, args: seq<string>, envp: seq<string>, auxv: seq<Aux>, execfn: string)
    requires Placed(base) && Fits(env, argv, 23) && forall s :: s in argv || s in env ==> NoNul(s)
    requires 0 <= p.phdr < WORD && 0 <= p.phnum < WORD && 0 <= p.entry < WORD && 0 <= p.random < WORD
    ensures argc == |argv| + 1 && args == [FILENAME] + argv && envp == Reverse(env)
    ensures auxv == Reverse(AuxTable(p, FilenameAddress(base, env, argv)))[..22]
    ensures Describes(auxv, p, FilenameAddress(base, env, argv))
    ensures execfn == FILENAME
  {
    hide Describes, Layout, PageOf, Address, ReadsAs, Fits, AuxTable, NoNul, InWord, StringAt, AllStrings;
    var s := new StackPage(base);
    s.Prepare(env, argv, p);
    FilenameInWord(base, env, argv);
    ghost var aux := AuxTable(p, FilenameAddress(base, env, argv));
    AuxTableFacts(p, FilenameAddress(base, env, argv));
    LayoutReadsBack(base, env, argv, aux);
    CleanLists(env, argv);
    argc, args, envp, auxv := CheckStack(s.page, base, s.sp, [FILENAME] + argv, Reverse(env), Reverse(aux));
    FilenameInPage(base, env, argv, aux);
    FilenameEntry(p, FilenameAddress(base, env, argv));
    AuxDescribes(p, FilenameAddress(base, env, argv));
    var k := AuxIndex(auxv, 31, 1);
    execfn := ReadString(s.page, auxv[k].value - base, FILENAME);
  }

  /** The first entry of a kind. */
  method AuxIndex(auxv: seq<Aux>, id: int, ghost first: nat) returns (k: nat)
    requires first < |auxv| && auxv[first].id == id && forall i :: 0 <= i < first ==> auxv[i].id != id
    ensures k == first
  {
    k := 0;
    while auxv[k].id != id
      invariant k <= first
      decreases first - k
    {
      k := k + 1;
    }
  }

  lemma FilenameEntry(p: Program, filename: int)
    ensures var auxv := Reverse(AuxTable(p, filename))[..22];
            auxv[0].id != 31 && auxv[1] == Aux(31, filename)
  {
  }

  lemma FilenameInPage(base: nat, env: seq<string>, argv: seq<string>, aux: seq<Aux>)
    requires Placed(base) && Fits(env, argv, |aux|)
    ensures StringAt(PageOf(Layout(base, env, argv, aux)), FilenameAddress(base, env, argv) - base, FILENAME)
    ensures NoNul(FILENAME) && FilenameAddress(base, env, argv) == base + 4008
  {
    hide PageOf, Layout, Fits, StringAt;
    PageString(base, env, argv, aux, 0);
    assert AllStrings(env, argv)[..1] == [FILENAME];
    assert Strings([FILENAME]) == FILENAME + ['\0'] + Strings([]);
    assert AllStrings(env, argv)[0] == FILENAME;
  }

  /** The stack of a new process, with the built-in environment. */
  method PrepareProcess(base: nat, argv: seq<string>, p: Program)
    returns (argc: nat, args: seq<string>, envp: seq<string>, auxv: seq<Aux>, execfn: string)
    requires Placed(base) && Fits(ENV, argv, 23) && forall s :: s in argv ==> NoNul(s)
    requires 0 <= p.phdr < WORD && 0 <= p.phnum < WORD && 0 <= p.entry < WORD && 0 <= p.random < WORD
    ensures argc == |argv| + 1 && args == [FILENAME] + argv && envp == Reverse(ENV)
    ensures auxv == Reverse(AuxTable(p, FilenameAddress(base, ENV, argv)))[..22] && execfn == FILENAME
    ensures Describes(auxv, p, FilenameAddress(base, ENV, argv))
  {
    hide AuxTable, Describes, NoNul, Fits, FilenameAddress;
    EnvironmentIsClean();
    argc, args, envp, auxv, execfn := PrepareAndCheck(base, ENV, argv, p);
  }

  lemma EnvironmentIsClean()
    ensures forall s :: s in ENV ==> NoNul(s)
  {
    hide NoNul;
    SettingsAreClean();
    InvocationIsClean();
  }

  lemma SettingsAreClean()
    ensures NoNul("SHELL=ash") && NoNul("PWD=/") && NoNul("HOME=/") && NoNul("USER=root")
    ensures NoNul("MOTD_SHOWN=pam") && NoNul("LANG=C.UTF-8") && NoNul("TERM=vt220") && NoNul("SHLVL=2")
    ensures NoNul("JOURNAL_STREAM=8:9265") && NoNul("PATH=/") && NoNul("OLDPWD=/") && NoNul("_=busybox")
  {
  }

  lemma InvocationIsClean()
    ensures NoNul(INVOCATION)
  {
    var name, high, low := "INVOCATION_ID=", "e9500a871cf044d9", "886a157f53826684";
    assert NoNul(name) && NoNul(high) && NoNul(low);
    BothClean(name, high);
    BothClean(name + high, low);
  }

  lemma BothClean(a: string, b: string)
    requires NoNul(a) && NoNul(b)
    ensures NoNul(a + b)
  {
  }

  lemma FilenameInWord(base: nat, env: seq<string>, argv: seq<string>)
    requires Placed(base) && Fits(env, argv, 23)
    ensures 0 <= Address(base, AllStrings(env, argv), 0) < WORD
  {
    hide Strings;
    AddressInPage(base, AllStrings(env, argv), 0);
  }

  function Blocks(aux: seq<int>, env: seq<int>, args: seq<int>, filename: int, argc: int): (ws: seq<int>)
    ensures |ws| == |aux| + |env| + |args| + 4
  {
    aux + [0] + env + [0] + args + [filename, argc]
  }

  lemma BlockPlaces(aux: seq<int>, env: seq<int>, args: seq<int>, filename: int, argc: int)
    ensures var ws := Blocks(aux, env, args, filename, argc);
            var a, e, n := |aux|, |env|, |args|;
            && ws[..a] == aux && ws[a] == 0
            && ws[a + 1..a + 1 + e] == env && ws[a + 1 + e] == 0
            && ws[a + 2 + e..a + 2 + e + n] == args
            && ws[a + 2 + e + n] == filename && ws[a + 3 + e + n] == argc && ws[..a + 4 + e + n] == ws
  {
  }

  lemma NoWords(ws: seq<int>, rest: string)
    ensures Words(ws[..0]) + rest == rest
  {
  }

  lemma AlignLemma(base: nat, o: nat)
    requires base % PAGE == 0
    ensures (base + o) % 16 == o % 16
  {
    AddMultiple(256 * (base / PAGE), o);
  }

  /** The words are pushed from an address that is a multiple of sixteen, the next one below the strings. */
  lemma WordsStartAligned(base: nat, list: seq<string>)
    requires base % PAGE == 0 && |StringPart(list)| <= TOP
    ensures (base + TOP - |StringPart(list)|) % 16 == 0
    ensures |Strings(list)| <= |StringPart(list)| < |Strings(list)| + 16
  {
    hide Strings;
    AlignLemma(base, TOP - |StringPart(list)|);
  }

  lemma AddMultiple(m: nat, o: nat)
    ensures (16 * m + o) % 16 == o % 16
  {
  }

  lemma StringsStep(list: seq<string>, k: nat)
    requires k < |list|
    ensures Strings(list[..k + 1]) == list[k] + ['\0'] + Strings(list[..k])
  {
    assert list[..k + 1][..k] == list[..k];
  }

  lemma WordsStep(ws: seq<int>, k: nat)
    requires k < |ws|
    ensures Words(ws[..k + 1]) == Encode(ws[k], 8) + Words(ws[..k])
  {
    assert ws[..k + 1][..k] == ws[..k];
  }

  lemma PagePrefix(content: string, source: string, mem: string)
    requires |source| + |content| <= TOP && |mem| == PAGE
    requires var o := TOP - |content| - |source|;
             forall k :: 0 <= k < PAGE ==> mem[k] == if o <= k < o + |source| then source[k - o] else PageOf(content)[k]
    ensures mem == PageOf(source + content)
  {
  }
}

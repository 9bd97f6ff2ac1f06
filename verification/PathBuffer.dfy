/** The resolver as it runs: splitting and reprinting in one static buffer of characters. */
module PathBuffer {
  import opened CStrings
  import opened PathSpec
  import opened Results

  // ----- lengths: the result always fits where the input did -----

  lemma {:induction false} PrintedConcat(a: seq<string>, b: seq<string>)
    ensures Printed(a + b) == Printed(a) + Printed(b)
  {
    if b == [] {
      assert a + b == a;
    } else {
      var n := |b| - 1;
      PrintedConcat(a, b[..n]);
      assert (a + b)[..|a| + n] == a + b[..n];
      assert Printed(b) == Printed(b[..n]) + "/" + b[n];
    }
  }

  lemma PrintedOne(u: string)
    ensures |Printed([u])| == 1 + |u|
  {
    assert Printed([u]) == Printed([]) + "/" + u;
  }

  lemma {:induction false} TokensFill(s: string)
    ensures |Printed(Tokens(s))| == |s| + 1
  {
    hide Printed;
    if s == "" {
      PrintedOne("");
    } else {
      TokensFill(s[1..]);
      var ts := Tokens(s[1..]);
      assert ts == [ts[0]] + ts[1..];
      PrintedConcat([ts[0]], ts[1..]);
      PrintedConcat([""], ts);
      PrintedConcat([[s[0]] + ts[0]], ts[1..]);
      PrintedOne("");
      PrintedOne(ts[0]);
      PrintedOne([s[0]] + ts[0]);
    }
  }

  lemma {:induction false} NonEmptyShrinks(ts: seq<string>)
    ensures |Printed(NonEmpty(ts))| <= |Printed(ts)|
    ensures ts != [] && ts[0] == "" ==> |Printed(NonEmpty(ts))| < |Printed(ts)|
  {
    if ts != [] {
      hide Printed;
      NonEmptyShrinks(ts[1..]);
      assert ts == [ts[0]] + ts[1..];
      PrintedConcat([ts[0]], ts[1..]);
      PrintedConcat([ts[0]], NonEmpty(ts[1..]));
      PrintedOne(ts[0]);
      assert [] + NonEmpty(ts[1..]) == NonEmpty(ts[1..]);
    }
  }

  lemma {:induction false} FoldShrinks(st: seq<string>, us: seq<string>)
    ensures match Fold(st, us)
            case None => true
            case Some(m) => |Printed(m)| <= |Printed(st)| + |Printed(us)|
    decreases |us|
  {
    if us != [] {
      hide Printed;
      var rest := us[1..];
      assert us == [us[0]] + rest;
      PrintedConcat([us[0]], rest);
      if us[0] == "." {
        FoldShrinks(st, rest);
      } else if us[0] == ".." {
        if st != [] {
          var n := |st| - 1;
          assert st == st[..n] + [st[n]];
          PrintedConcat(st[..n], [st[n]]);
          FoldShrinks(st[..n], rest);
        }
      } else if |st| + 1 < MAX_UNITS {
        PrintedConcat(st, [us[0]]);
        FoldShrinks(st + [us[0]], rest);
      }
    }
  }

  /** The joined path leaves room for its result. */
  predicate Room(joined: string) {
    |joined| < MAX_LEN && (joined == "" || joined[0] == '/' || |Tokens(joined)[0]| + |joined| + 1 < MAX_LEN)
  }

  lemma ResultFits(joined: string)
    requires Room(joined)
    ensures |Tokens(joined)[0]| <= |joined|
    ensures match Fold([], Units(joined))
            case None => true
            case Some(st) => |Tokens(joined)[0]| + |Printed(st)| < MAX_LEN
  {
    hide Fold;
    FirstToken(joined);
    TokensFill(joined);
    NonEmptyShrinks(Tokens(joined));
    FoldShrinks([], Units(joined));
    var ts := Tokens(joined);
    assert ts == [ts[0]] + ts[1..];
    PrintedConcat([ts[0]], ts[1..]);
    PrintedOne(ts[0]);
  }

  /** The terminated string at the start of the buffer is `s`. */
  ghost predicate Spells(buf: string, s: string) {
    NoNul(s) && |s| < |buf| && buf[..|s|] == s && buf[|s|] == '\0'
  }

  /** The buffer after the slashes before position `p` have been overwritten. */
  function Split(joined: string, p: nat): (s: string)
    requires p <= |joined|
    ensures |s| == |joined|
  {
    seq(|joined|, i requires 0 <= i < |joined| => if i < p && joined[i] == '/' then '\0' else joined[i])
  }

  ghost predicate Holds(buf: string, joined: string, p: nat)
    requires p <= |joined|
  {
    |buf| == MAX_LEN && |joined| < MAX_LEN && buf == Split(joined, p) + Zeros(MAX_LEN - |joined|)
  }

  /** Up to the first slash is one token; what follows it is split further. */
  lemma NextToken(joined: string, p: nat, e: nat)
    requires p <= e <= |joined| && (forall k :: p <= k < e ==> joined[k] != '/')
    ensures e == |joined| ==> Tokens(joined[p..]) == [joined[p..e]]
    ensures e < |joined| && joined[e] == '/' ==> Tokens(joined[p..]) == [joined[p..e]] + Tokens(joined[e + 1..])
  {
    hide Tokens;
    TokensOfUnit(joined[p..e]);
    if e < |joined| && joined[e] == '/' {
      assert joined[p..] == joined[p..e] + "/" + joined[e + 1..];
      TokensAtSlash(joined[p..e], joined[e + 1..]);
    } else if e == |joined| {
      assert joined[p..] == joined[p..e];
    }
  }

  function Prefix(path: string, cwd: Option<string>): string {
    if cwd == None || (path != "" && path[0] == '/') then ""
    else if cwd.value == "" || cwd.value[|cwd.value| - 1] != '/' then cwd.value + "/"
    else cwd.value
  }

  lemma PrefixJoined(path: string, cwd: Option<string>)
    ensures Prefix(path, cwd) + path == Joined(path, cwd)
  {
  }

  lemma PrefixIsClean(path: string, cwd: Option<string>)
    requires cwd.Some? ==> NoNul(cwd.value)
    ensures NoNul(Prefix(path, cwd))
  {
  }

  lemma CleanSpells(buf: string, cur: string)
    requires |cur| < MAX_LEN && buf == cur + Zeros(MAX_LEN - |cur|) && NoNul(cur)
    ensures Spells(buf, cur)
  {
  }

  class Resolver {
    const buf: array<char>
    const units: array<string>
    const res: array<string>

    ghost predicate Sized()
    {
      buf.Length == MAX_LEN && units.Length == MAX_UNITS && res.Length == MAX_UNITS && units != res
    }

    constructor ()
      ensures Sized() && fresh(buf) && fresh(units) && fresh(res)
    {
      buf := new char[MAX_LEN](_ => '\0');
      units := new string[MAX_UNITS](_ => "");
      res := new string[MAX_UNITS](_ => "");
    }

    method StrLen(ghost s: string) returns (n: nat)
      requires Spells(buf[..], s)
      ensures n == |s|
    {
      forall k | 0 <= k < |s|
        ensures buf[k] != '\0'
      {
        assert buf[..][..|s|][k] == buf[k];
        assert s[k] in s;
      }
      n := 0;
      while buf[n] != '\0'
        invariant n <= |s|
        decreases |s| - n
      {
        n := n + 1;
      }
    }

    method StrCpyAt(at: nat, s: string)
      requires Sized() && at + |s| < MAX_LEN
      modifies buf
      ensures forall k :: 0 <= k < MAX_LEN ==>
        buf[k] == if k < at || k > at + |s| then old(buf[k]) else if k == at + |s| then '\0' else s[k - at]
    {
      for i := 0 to |s|
        invariant forall k :: 0 <= k < MAX_LEN ==> buf[k] == if at <= k < at + i then s[k - at] else old(buf[k])
      {
        buf[at + i] := s[i];
      }
      buf[at + |s|] := '\0';
    }

    /** Copies `s` to the end of the string in the buffer. */
    method Append(s: string, ghost cur: string)
      requires Sized() && Spells(buf[..], cur) && NoNul(s) && |cur| + |s| < MAX_LEN
      modifies buf
      ensures Spells(buf[..], cur + s)
      ensures forall k :: |cur| + |s| < k < MAX_LEN ==> buf[k] == old(buf[k])
    {
      var n := StrLen(cur);
      forall k | 0 <= k < |cur|
        ensures buf[k] == cur[k]
      {
        assert buf[..][..|cur|][k] == buf[k];
      }
      StrCpyAt(n, s);
      assert buf[..][..|cur + s|] == cur + s;
    }

    /** Copies `s` into the still clean rest of the buffer. */
    method Extend(at: nat, s: string, ghost cur: string)
      requires Sized() && at == |cur| && |cur| + |s| < MAX_LEN && buf[..] == cur + Zeros(MAX_LEN - |cur|)
      modifies buf
      ensures buf[..] == (cur + s) + Zeros(MAX_LEN - |cur + s|)
    {
      ghost var before := buf[..];
      StrCpyAt(at, s);
      ghost var after := (cur + s) + Zeros(MAX_LEN - |cur + s|);
      assert forall k :: 0 <= k < MAX_LEN ==> buf[k] == after[k];
    }

    /** The working directory, at the start of the clean buffer. */
    method PutDirectory(cwd: string)
      requires Sized() && buf[..] == "" + Zeros(MAX_LEN) && |cwd| < MAX_LEN
      modifies buf
      ensures buf[..] == cwd + Zeros(MAX_LEN - |cwd|)
    {
      hide Zeros;
      Extend(0, cwd, "");
      assert "" + cwd == cwd;
    }

    /** A slash after the working directory. */
    method PutSlash(cwd: string)
      requires Sized() && |cwd| + 1 < MAX_LEN && buf[..] == cwd + Zeros(MAX_LEN - |cwd|) && NoNul(cwd)
      modifies buf
      ensures buf[..] == (cwd + "/") + Zeros(MAX_LEN - |cwd + "/"|)
    {
      hide Zeros, NoNul, Spells;
      CleanSpells(buf[..], cwd);
      var n := StrLen(cwd);
      Extend(n, "/", cwd);
    }

    /** The working directory and its slash, where the path needs them. */
    method PutPrefix(path: string, cwd: Option<string>)
      requires Sized() && buf[..] == "" + Zeros(MAX_LEN)
      requires |Prefix(path, cwd)| < MAX_LEN && (cwd.Some? ==> NoNul(cwd.value))
      modifies buf
      ensures buf[..] == Prefix(path, cwd) + Zeros(MAX_LEN - |Prefix(path, cwd)|) && NoNul(Prefix(path, cwd))
    {
      hide Zeros, NoNul;
      PrefixIsClean(path, cwd);
      if cwd != None {
        if !(path != "" && path[0] == '/') {
          PutDirectory(cwd.value);
          if cwd.value == "" || cwd.value[|cwd.value| - 1] != '/' {
            PutSlash(cwd.value);
          }
        }
      }
    }

    /** Fills the buffer with the joined path. */
    method Join(path: string, cwd: Option<string>)
      requires Sized() && |Joined(path, cwd)| < MAX_LEN && NoNul(path) && (cwd.Some? ==> NoNul(cwd.value))
      modifies buf
      ensures Holds(buf[..], Joined(path, cwd), 0)
    {
      hide Zeros, Joined, Prefix;
      Clear();
      ghost var prefix := Prefix(path, cwd);
      PrefixJoined(path, cwd);
      PutPrefix(path, cwd);
      CleanSpells(buf[..], prefix);
      var n := StrLen(prefix);
      Extend(n, path, prefix);
      assert Split(prefix + path, 0) == prefix + path;
    }

    method Clear()
      requires Sized()
      modifies buf
      ensures buf[..] == "" + Zeros(MAX_LEN)
    {
      for i := 0 to MAX_LEN
        invariant forall k :: 0 <= k < i ==> buf[k] == '\0'
      {
        buf[i] := '\0';
      }
    }

    /** Cuts the token at `p` off; `next` is where the following one starts, or -1. */
    method StrSep(p: nat, ghost joined: string) returns (next: int, ghost e: nat)
      requires Sized() && p <= |joined| && Holds(buf[..], joined, p) && NoNul(joined)
      modifies buf
      ensures p <= e <= |joined| && (forall k :: p <= k < e ==> joined[k] != '/')
      ensures if e < |joined| then joined[e] == '/' && next == e + 1 && Holds(buf[..], joined, e + 1)
              else next == -1 && Holds(buf[..], joined, e)
    {
      forall k | p <= k < |joined|
        ensures buf[k] == joined[k] && buf[k] != '\0'
      {
        assert buf[..][k] == Split(joined, p)[k];
        assert joined[k] in joined;
      }
      assert buf[..][|joined|] == '\0';
      var i := p;
      while buf[i] != '\0' && buf[i] != '/'
        invariant p <= i <= |joined| && forall k :: p <= k < i ==> joined[k] != '/'
        decreases |joined| - i
      {
        i := i + 1;
      }
      e := i;
      if buf[i] == '/' {
        buf[i] := '\0';
        next := i + 1;
        assert buf[..] == Split(joined, i + 1) + Zeros(MAX_LEN - |joined|);
      } else {
        next := -1;
        assert Split(joined, p) == Split(joined, |joined|);
      }
    }

    /** Copies the token out of the buffer. */
    method CopyUnit(p: nat, ghost joined: string, ghost e: nat) returns (unit: string)
      requires Sized() && p <= e <= |joined| && NoNul(joined) && (forall k :: p <= k < e ==> joined[k] != '/')
      requires if e < |joined| then joined[e] == '/' && Holds(buf[..], joined, e + 1) else Holds(buf[..], joined, e)
      ensures unit == joined[p..e]
    {
      forall k | p <= k < e
        ensures buf[k] == joined[k] && buf[k] != '\0'
      {
        assert buf[..][k] == buf[k];
        assert joined[k] in joined;
      }
      assert buf[..][e] == '\0';
      unit := "";
      var i := p;
      while buf[i] != '\0'
        invariant p <= i <= e && unit == joined[p..i]
        decreases e - i
      {
        unit := unit + [buf[i]];
        i := i + 1;
      }
    }

    /** Splits in place and collects the components. */
    method CutUnits(ghost joined: string) returns (count: nat)
      requires Sized() && Holds(buf[..], joined, 0) && NoNul(joined) && |Units(joined)| <= MAX_UNITS
      modifies buf, units
      ensures count <= MAX_UNITS && units[..count] == Units(joined) && Holds(buf[..], joined, |joined|)
    {
      hide Tokens, NonEmpty, Holds, NoNul;
      count := 0;
      var p: int := 0;
      ghost var done: seq<string> := [];
      assert joined[0..] == joined && [] + Tokens(joined) == Tokens(joined);
      NoTokens();
      while p != -1
        invariant -1 <= p <= |joined|
        invariant p >= 0 ==> Tokens(joined) == done + Tokens(joined[p..]) && Holds(buf[..], joined, p)
        invariant p == -1 ==> Tokens(joined) == done && Holds(buf[..], joined, |joined|)
        invariant count <= MAX_UNITS && units[..count] == NonEmpty(done)
        decreases if p == -1 then 0 else |joined| - p + 1
      {
        ghost var before := p;
        var next, e := StrSep(p, joined);
        var unit := CopyUnit(p, joined, e);
        NextToken(joined, p, e);
        ghost var rest := if next == -1 then [] else Tokens(joined[next..]);
        assert done + ([unit] + rest) == done + [unit] + rest;
        TokenCounts(joined, done, unit, rest);
        if unit != "" {
          units[count] := unit;
          count := count + 1;
        }
        done := done + [unit];
        p := next;
      }
    }

    /** Folds the components; -1 stands for a failed walk. */
    method FoldUnits(count: nat) returns (cur: int)
      requires Sized() && count <= MAX_UNITS
      modifies res
      ensures match Fold([], units[..count])
              case None => cur == -1
              case Some(st) => 0 <= cur < MAX_UNITS && res[..cur] == st
    {
      hide Fold;
      ghost var us := units[..count];
      cur := 0;
      var k := 0;
      while k < count
        invariant 0 <= k <= count && 0 <= cur < MAX_UNITS && units[..count] == us
        invariant Fold([], us) == Fold(res[..cur], us[k..])
      {
        FoldStep(res[..cur], us, k);
        if units[k] == "." {
        } else if units[k] == ".." {
          cur := cur - 1;
          if cur < 0 {
            return -1;
          }
          assert res[..cur + 1][..cur] == res[..cur];
        } else {
          ghost var st := res[..cur];
          res[cur] := units[k];
          cur := cur + 1;
          assert res[..cur] == st + [us[k]];
          if cur >= MAX_UNITS {
            return -1;
          }
        }
        k := k + 1;
      }
      FoldDone(res[..cur], us);
    }

    /** Prints the stack behind what is left at the start of the buffer. */
    method PrintUnits(cur: nat, ghost first: string)
      requires Sized() && cur <= MAX_UNITS && Spells(buf[..], first)
      requires |first| + |Printed(res[..cur])| < MAX_LEN && forall i :: 0 <= i < cur ==> NoNul(res[i])
      modifies buf
      ensures Spells(buf[..], first + Printed(res[..cur]))
    {
      hide Printed, NoNul;
      NothingPrinted(first);
      ghost var st := res[..cur];
      for i := 0 to cur
        invariant Spells(buf[..], first + Printed(st[..i]))
      {
        ghost var done := first + Printed(st[..i]);
        PrintedPrefix(st, i + 1);
        PrintedStep(st, i);
        SlashIsClean();
        Append("/", done);
        Append(res[i], done + "/");
        assert done + "/" + st[i] == first + (Printed(st[..i]) + "/" + st[i]);
      }
      assert st[..cur] == st;
    }

    /**
     The absolute path in the buffer, or nothing: the fold over the components, printed after what preceded
     the first slash.
     */
    method GetAbsolutePath(path: Option<string>, cwd: Option<string>) returns (r: Option<string>)
      requires Sized() && (path.None? ==> cwd.None?)
      requires path.Some? ==> NoNul(path.value) && (cwd.Some? ==> NoNul(cwd.value))
      requires path.Some? ==> Room(Joined(path.value, cwd)) && |Units(Joined(path.value, cwd))| <= MAX_UNITS
      modifies buf, units, res
      ensures r == if path.None? then None else Returned(Joined(path.value, cwd))
      ensures r.Some? ==> Spells(buf[..], r.value)
    {
      if path.None? {
        return None;
      }
      hide Tokens, Units, Printed, Joined, Fold, NoNul, Spells, Holds;
      ghost var joined := Joined(path.value, cwd);
      JoinedIsClean(path.value, cwd);
      Join(path.value, cwd);
      var count := CutUnits(joined);
      var cur := FoldUnits(count);
      if cur == -1 {
        return None;
      }
      Reprint(cur, joined);
      var text := ReadOut(Returned(joined).value);
      r := Some(text);
    }

    /** Overwrites the split buffer with the result. */
    method Reprint(cur: nat, ghost joined: string)
      requires Sized() && NoNul(joined) && Room(joined) && Holds(buf[..], joined, |joined|)
      requires cur <= MAX_UNITS && Fold([], Units(joined)) == Some(res[..cur])
      modifies buf
      ensures Returned(joined).Some? && Spells(buf[..], Returned(joined).value)
    {
      hide Tokens, Units, Printed, Fold, NoNul, Spells, Holds;
      SplitSpells(buf[..], joined);
      ResultFits(joined);
      FoldIsClean(joined);
      PrintUnits(cur, Tokens(joined)[0]);
      if cur == 0 {
        StrCpyAt(0, "/");
        SlashSpells(buf[..]);
      }
    }

    method ReadOut(ghost s: string) returns (r: string)
      requires Sized() && Spells(buf[..], s)
      ensures r == s
    {
      var n := StrLen(s);
      r := buf[..n];
    }
  }

  lemma SlashSpells(buf: string)
    requires |buf| == MAX_LEN && buf[0] == '/' && buf[1] == '\0'
    ensures Spells(buf, "/")
  {
    assert buf[..1] == "/";
  }

  lemma JoinedIsClean(path: string, cwd: Option<string>)
    requires NoNul(path) && (cwd.Some? ==> NoNul(cwd.value))
    ensures NoNul(Joined(path, cwd))
  {
  }

  lemma {:induction false} FoldMembers(st: seq<string>, us: seq<string>, u: string)
    requires Fold(st, us).Some? && u in Fold(st, us).value
    ensures u in st || u in us
    decreases |us|
  {
    if us != [] {
      if us[0] == "." {
        FoldMembers(st, us[1..], u);
      } else if us[0] == ".." {
        FoldMembers(st[..|st| - 1], us[1..], u);
      } else {
        FoldMembers(st + [us[0]], us[1..], u);
      }
    }
  }

  lemma {:induction false} TokenChars(s: string, i: nat, c: char)
    requires i < |Tokens(s)| && c in Tokens(s)[i]
    ensures c in s
  {
    if s != "" {
      hide Tokens;
      TokensStep(s[0], s[1..]);
      assert [s[0]] + s[1..] == s;
      var ts := Tokens(s[1..]);
      if s[0] == '/' {
        if i > 0 {
          TokenChars(s[1..], i - 1, c);
        }
      } else if i > 0 || c in ts[0] {
        TokenChars(s[1..], i, c);
      }
    } else {
      TokensEmpty();
    }
  }

  /** The components of a clean path are clean. */
  lemma FoldIsClean(joined: string)
    requires NoNul(joined)
    ensures match Fold([], Units(joined))
            case None => true
            case Some(st) => forall i :: 0 <= i < |st| ==> NoNul(st[i])
  {
    hide Fold, Tokens, NonEmpty;
    if Fold([], Units(joined)).Some? {
      var st := Fold([], Units(joined)).value;
      forall i, c | 0 <= i < |st| && c in st[i]
        ensures c != '\0'
      {
        FoldMembers([], Units(joined), st[i]);
        NonEmptyMembers(Tokens(joined), st[i]);
        var k :| 0 <= k < |Tokens(joined)| && Tokens(joined)[k] == st[i];
        TokenChars(joined, k, c);
      }
    }
  }

  lemma SlashIsClean()
    ensures NoNul("/")
  {
  }

  lemma NothingPrinted(first: string)
    ensures forall st: seq<string> :: first + Printed(st[..0]) == first
  {
  }

  lemma PrintedStep(st: seq<string>, i: nat)
    requires i < |st|
    ensures Printed(st[..i + 1]) == Printed(st[..i]) + "/" + st[i]
  {
    assert st[..i + 1][..i] == st[..i];
  }

  /** One component of a walk. */
  lemma FoldStep(st: seq<string>, us: seq<string>, k: nat)
    requires k < |us|
    ensures Fold(st, us[k..]) ==
      if us[k] == "." then Fold(st, us[k + 1..])
      else if us[k] == ".." then if st == [] then None else Fold(st[..|st| - 1], us[k + 1..])
      else if |st| + 1 >= MAX_UNITS then None
      else Fold(st + [us[k]], us[k + 1..])
  {
    assert us[k..][0] == us[k] && us[k..][1..] == us[k + 1..];
  }

  lemma FoldDone(st: seq<string>, us: seq<string>)
    ensures Fold(st, us[|us|..]) == Some(st)
  {
  }

  lemma PrintedPrefix(st: seq<string>, i: nat)
    requires i <= |st|
    ensures |Printed(st[..i])| <= |Printed(st)|
  {
    assert st == st[..i] + st[i..];
    PrintedConcat(st[..i], st[i..]);
  }

  lemma NoTokens()
    ensures NonEmpty([]) == []
  {
  }

  /** There is room for the next component. */
  lemma TokenCounts(joined: string, done: seq<string>, unit: string, rest: seq<string>)
    requires Tokens(joined) == done + [unit] + rest
    ensures NonEmpty(done + [unit]) == NonEmpty(done) + (if unit == "" then [] else [unit])
    ensures |NonEmpty(done + [unit])| <= |Units(joined)|
  {
    hide Tokens;
    NonEmptyConcat(done + [unit], rest);
    NonEmptyConcat(done, [unit]);
    NonEmptyStep(unit, []);
    assert [unit] + [] == [unit];
  }

  lemma {:induction false} FirstTokenSpan(s: string)
    ensures var first := Tokens(s)[0];
            |first| <= |s| && s[..|first|] == first && '/' !in first && (|first| == |s| || s[|first|] == '/')
  {
    if s != "" {
      hide Tokens;
      var c, t := s[0], s[1..];
      FirstTokenSpan(t);
      assert s == [c] + t;
      TokensStep(c, t);
      var first := Tokens(t)[0];
      if c != '/' {
        assert s[..|first| + 1] == [c] + t[..|first|];
      }
    }
  }

  /** After the split the buffer spells what preceded the first slash. */
  lemma SplitSpells(buf: string, joined: string)
    requires Holds(buf, joined, |joined|) && NoNul(joined)
    ensures Spells(buf, Tokens(joined)[0])
  {
    hide Tokens;
    FirstTokenSpan(joined);
    var n := |Tokens(joined)[0]|;
    forall k | 0 <= k < n
      ensures buf[k] == joined[k] && joined[k] in joined
    {
      assert joined[..n][k] == joined[k];
    }
    assert buf[..n] == joined[..n];
    forall c | c in Tokens(joined)[0]
      ensures c != '\0'
    {
      assert c in joined[..n];
    }
  }
}

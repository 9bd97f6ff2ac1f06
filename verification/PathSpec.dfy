/** Absolute path resolution as a fold over path components. */
module PathSpec {

  import opened Results
  import opened Sequences

  const MAX_LEN := 512
  const MAX_UNITS := 16

  /** The tokens between slashes, empty ones included; there is always at least one. */
  function Tokens(s: string): (ts: seq<string>)
    ensures |ts| >= 1
  {
    if s == "" then [""]
    else
      var ts := Tokens(s[1..]);
      if s[0] == '/' then [""] + ts else [[s[0]] + ts[0]] + ts[1..]
  }

  function NonEmpty(ts: seq<string>): seq<string> {
    if ts == [] then [] else (if ts[0] == "" then [] else [ts[0]]) + NonEmpty(ts[1..])
  }

  /** The components of a path. */
  function Units(s: string): seq<string> { NonEmpty(Tokens(s)) }

  /**
   Walks the components: "." stays, ".." pops, anything else pushes; popping the root or reaching the depth
   limit fails.
   */
  function Fold(st: seq<string>, us: seq<string>): Option<seq<string>>
    decreases |us|
  {
    if us == [] then Some(st)
    else if us[0] == "." then Fold(st, us[1..])
    else if us[0] == ".." then if st == [] then None else Fold(st[..|st| - 1], us[1..])
    else if |st| + 1 >= MAX_UNITS then None
    else Fold(st + [us[0]], us[1..])
  }

  function Printed(st: seq<string>): string {
    if st == [] then "" else Printed(st[..|st| - 1]) + "/" + st[|st| - 1]
  }

  /** The absolute path of a component stack. */
  function Render(st: seq<string>): string { if st == [] then "/" else Printed(st) }

  /** What path resolution is for. */
  function Resolve(joined: string): Option<string> {
    match Fold([], Units(joined))
    case None => None
    case Some(st) => Some(Render(st))
  }

  /** What the code returns: it prints after whatever precedes the first slash. */
  function Returned(joined: string): Option<string> {
    match Fold([], Units(joined))
    case None => None
    case Some(st) => if st == [] then Some("/") else Some(Tokens(joined)[0] + Printed(st))
  }

  /** The path as the code joins it: a relative path after the working directory and a slash. */
  function Joined(path: string, cwd: Option<string>): string {
    if cwd == None || (path != "" && path[0] == '/') then path
    else cwd.value + (if cwd.value == "" || cwd.value[|cwd.value| - 1] != '/' then "/" else "") + path
  }

  // ----- when the code is right -----

  lemma {:induction false} PrintedLength(st: seq<string>)
    requires st != []
    ensures Printed(st) != "" && Printed(st)[0] == '/'
  {
    if |st| > 1 {
      PrintedLength(st[..|st| - 1]);
    }
  }

  lemma FirstToken(s: string)
    ensures Tokens(s)[0] == "" <==> s == "" || s[0] == '/'
  {
  }

  /** The code resolves every joined path that starts with a slash, and the empty one. */
  lemma SlashedIsResolved(joined: string)
    requires joined == "" || joined[0] == '/'
    ensures Returned(joined) == Resolve(joined)
  {
    hide Fold, Units, Tokens, Printed;
    FirstToken(joined);
    var f := Fold([], Units(joined));
    if f.Some? {
      assert "" + Printed(f.value) == Printed(f.value);
    }
  }

  /** Any other joined path comes out with its first token in front, so it is right only as the root or as an error. */
  lemma UnslashedIsResolvedIff(joined: string)
    requires joined != "" && joined[0] != '/'
    ensures Returned(joined) == Resolve(joined) <==> Resolve(joined) == None || Resolve(joined) == Some("/")
  {
    hide Fold, Units, Tokens, Printed;
    FirstToken(joined);
    UnitsAreUnits(joined);
    var f := Fold([], Units(joined));
    if f.Some? && f.value != [] {
      var first, rest := Tokens(joined)[0], Printed(f.value);
      assert |first + rest| == |first| + |rest|;
      FoldIsCanonical([], Units(joined));
      PrintedNotRoot(f.value);
    }
  }

  lemma PrintedNotRoot(st: seq<string>)
    requires st != [] && forall i :: 0 <= i < |st| ==> st[i] != ""
    ensures Printed(st) != "/"
  {
    var n := |st| - 1;
    assert |Printed(st)| == |Printed(st[..n])| + 1 + |st[n]|;
  }

  /** A relative path without a working directory shows the failure. */
  lemma RelativeWithoutCwdFails()
    ensures Returned("a") == Some("a/a") && Resolve("a") == Some("/a")
  {
    TokensOfUnit("a");
    assert NonEmpty(["a"]) == ["a"];
    assert [] + ["a"] == ["a"];
    FoldCanonical([], ["a"]);
    assert Printed(["a"]) == Printed([]) + "/" + "a";
    assert "" + "/" + "a" == "/a" && "a" + "/a" == "a/a";
  }

  // ----- components of rendered and joined paths -----

  ghost predicate IsUnit(u: string) { u != "" && '/' !in u }

  ghost predicate Canonical(st: seq<string>) {
    |st| < MAX_UNITS && forall i :: 0 <= i < |st| ==> IsUnit(st[i]) && st[i] != "." && st[i] != ".."
  }

  lemma NonEmptyStep(t: string, ts: seq<string>)
    ensures NonEmpty([t] + ts) == (if t == "" then [] else [t]) + NonEmpty(ts)
  {
    assert ([t] + ts)[1..] == ts;
  }

  lemma {:induction false} NonEmptyConcat(a: seq<string>, b: seq<string>)
    ensures NonEmpty(a + b) == NonEmpty(a) + NonEmpty(b)
  {
    if a == [] {
      assert a + b == b;
    } else {
      hide NonEmpty;
      var t, ts := a[0], a[1..];
      NonEmptyConcat(ts, b);
      assert a == [t] + ts && a + b == [t] + (ts + b);
      NonEmptyStep(t, ts);
      NonEmptyStep(t, ts + b);
      Assoc(if t == "" then [] else [t], NonEmpty(ts), NonEmpty(b));
    }
  }

  lemma TokensStep(c: char, s: string)
    ensures Tokens([c] + s) ==
      if c == '/' then [""] + Tokens(s) else [[c] + Tokens(s)[0]] + Tokens(s)[1..]
  {
    assert ([c] + s)[1..] == s;
  }

  lemma TokensEmpty()
    ensures Tokens("") == [""] && Units("") == []
  {
  }

  /** A slash separates the tokens of what is before and after it. */
  lemma {:induction false} TokensAtSlash(a: string, b: string)
    ensures Tokens(a + "/" + b) == Tokens(a) + Tokens(b)
  {
    hide Tokens;
    if a == "" {
      assert a + "/" + b == ['/'] + b;
      TokensStep('/', b);
      TokensEmpty();
    } else {
      var c, s := a[0], a[1..];
      TokensAtSlash(s, b);
      assert a == [c] + s;
      assert a + "/" + b == [c] + (s + "/" + b);
      TokensStep(c, s);
      TokensStep(c, s + "/" + b);
      var ts, tb := Tokens(s), Tokens(b);
      if c == '/' {
        Assoc([""], ts, tb);
      } else {
        assert (ts + tb)[1..] == ts[1..] + tb;
        Assoc([[c] + ts[0]], ts[1..], tb);
      }
    }
  }

  lemma UnitsAtSlash(a: string, b: string)
    ensures Units(a + "/" + b) == Units(a) + Units(b)
  {
    TokensAtSlash(a, b);
    NonEmptyConcat(Tokens(a), Tokens(b));
  }

  lemma {:induction false} TokensOfUnit(u: string)
    requires '/' !in u
    ensures Tokens(u) == [u]
  {
    if u != "" {
      TokensOfUnit(u[1..]);
      assert [u[0]] + u[1..] == u;
      TokensStep(u[0], u[1..]);
    }
  }

  lemma {:induction false} UnitsOfPrinted(st: seq<string>)
    requires forall i :: 0 <= i < |st| ==> IsUnit(st[i])
    ensures Units(Printed(st)) == st
  {
    if st == [] {
      assert Units("") == [];
    } else {
      var n := |st| - 1;
      UnitsOfPrinted(st[..n]);
      UnitsAtSlash(Printed(st[..n]), st[n]);
      TokensOfUnit(st[n]);
      assert NonEmpty([st[n]]) == [st[n]];
    }
  }

  lemma UnitsOfRender(st: seq<string>)
    requires forall i :: 0 <= i < |st| ==> IsUnit(st[i])
    ensures Units(Render(st)) == st
  {
    UnitsOfPrinted(st);
    if st == [] {
      UnitsAtSlash("", "");
      assert "" + "/" + "" == "/";
    }
  }

  lemma {:induction false} TokensHaveNoSlash(s: string, i: nat)
    requires i < |Tokens(s)|
    ensures '/' !in Tokens(s)[i]
  {
    if s != "" {
      if i < |Tokens(s[1..])| {
        TokensHaveNoSlash(s[1..], i);
      }
      if i > 0 {
        TokensHaveNoSlash(s[1..], i - 1);
      }
    }
  }

  lemma {:induction false} NonEmptyMembers(ts: seq<string>, u: string)
    requires u in NonEmpty(ts)
    ensures u in ts && u != ""
  {
    if ts != [] && u in NonEmpty(ts[1..]) {
      NonEmptyMembers(ts[1..], u);
    }
  }

  lemma UnitsAreUnits(s: string)
    ensures forall u :: u in Units(s) ==> IsUnit(u)
  {
    forall u | u in Units(s)
      ensures IsUnit(u)
    {
      NonEmptyMembers(Tokens(s), u);
      var i :| 0 <= i < |Tokens(s)| && Tokens(s)[i] == u;
      TokensHaveNoSlash(s, i);
    }
  }

  // ----- canonical results -----

  lemma {:induction false} FoldConcat(st: seq<string>, a: seq<string>, b: seq<string>)
    ensures Fold(st, a + b) == (match Fold(st, a) case None => None case Some(m) => Fold(m, b))
    decreases |a|
  {
    if a == [] {
      assert a + b == b;
    } else {
      assert (a + b)[1..] == a[1..] + b;
      if a[0] == "." {
        FoldConcat(st, a[1..], b);
      } else if a[0] == ".." {
        if st != [] {
          FoldConcat(st[..|st| - 1], a[1..], b);
        }
      } else if |st| + 1 < MAX_UNITS {
        FoldConcat(st + [a[0]], a[1..], b);
      }
    }
  }

  /** A canonical list of components folds to itself. */
  lemma {:induction false} FoldCanonical(st: seq<string>, us: seq<string>)
    requires Canonical(st + us)
    ensures Fold(st, us) == Some(st + us)
    decreases |us|
  {
    if us == [] {
      assert st + us == st;
    } else {
      assert (st + us)[|st|] == us[0];
      assert st + [us[0]] + us[1..] == st + us;
      FoldCanonical(st + [us[0]], us[1..]);
    }
  }

  lemma {:induction false} FoldIsCanonical(st: seq<string>, us: seq<string>)
    requires Canonical(st) && forall u :: u in us ==> IsUnit(u)
    ensures match Fold(st, us) case None => true case Some(m) => Canonical(m)
    decreases |us|
  {
    if us != [] {
      assert us[0] in us;
      var rest := us[1..];
      assert forall u :: u in rest ==> u in us;
      if us[0] == "." {
        FoldIsCanonical(st, rest);
      } else if us[0] == ".." {
        if st != [] {
          FoldIsCanonical(st[..|st| - 1], rest);
        }
      } else if |st| + 1 < MAX_UNITS {
        FoldIsCanonical(st + [us[0]], rest);
      }
    }
  }

  /** A resolved path has only proper components and resolves to itself. */
  lemma ResolvedIsFixed(joined: string)
    requires Resolve(joined).Some?
    ensures var r := Resolve(joined).value;
            && Canonical(Units(r)) && r == Render(Units(r))
            && Resolve(r) == Some(r) && Returned(r) == Some(r)
  {
    UnitsAreUnits(joined);
    FoldIsCanonical([], Units(joined));
    var st := Fold([], Units(joined)).value;
    UnitsOfRender(st);
    assert [] + st == st;
    FoldCanonical([], st);
    if st != [] {
      PrintedLength(st);
    }
    SlashedIsResolved(Render(st));
  }

  /**
   Changing to `p` and resolving the relative `q` there is resolving `q` against `p` in one step. The code gives the
   same in both ways exactly if `p` is empty or starts with a slash, or the path leads to the root or to an error.
   */
  lemma ResolveInSteps(p: string, q: string)
    requires (q == "" || q[0] != '/') && Resolve(p).Some?
    ensures Resolve(Joined(q, Some(Resolve(p).value))) == Resolve(Joined(q, Some(p)))
    ensures var whole := Joined(q, Some(p));
            Returned(Joined(q, Some(Resolve(p).value))) == Returned(whole) <==>
              p == "" || p[0] == '/' || Resolve(whole) == None || Resolve(whole) == Some("/")
  {
    hide Returned;
    var r := Resolve(p).value;
    ResolvedStarts(p);
    if p == "" {
      NothingResolves();
      assert Joined(q, Some("")) == "/" + q && Joined(q, Some("/")) == "/" + q;
    } else {
      JoinedUnits(q, p);
      JoinedUnits(q, r);
      SameFold(p, q);
      if p[0] == '/' {
        SlashedIsResolved(Joined(q, Some(p)));
      } else {
        UnslashedIsResolvedIff(Joined(q, Some(p)));
      }
    }
    SlashedIsResolved(Joined(q, Some(r)));
  }

  // ----- what each component does -----

  ghost predicate IsName(u: string) { IsUnit(u) && u != "." && u != ".." }

  lemma OneUnit(u: string)
    requires IsUnit(u)
    ensures Units(u) == [u]
  {
    TokensOfUnit(u);
    assert NonEmpty([u]) == [u];
  }

  /** Going on from a path is going on from the components it comes to. */
  lemma GoOn(a: string, b: string)
    ensures Resolve(a).None? ==> Resolve(a + "/" + b) == None
    ensures Resolve(a).Some? ==>
      var st := Units(Resolve(a).value);
      && Canonical(st) && Resolve(a).value == Render(st)
      && Resolve(a + "/" + b) == match Fold(st, Units(b)) case None => None case Some(m) => Some(Render(m))
  {
    hide Units, Render;
    UnitsAtSlash(a, b);
    FoldConcat([], Units(a), Units(b));
    if Resolve(a).Some? {
      UnitsAreUnits(a);
      FoldIsCanonical([], Units(a));
      UnitsOfRender(Fold([], Units(a)).value);
    }
  }

  lemma UnitThen(u: string, b: string)
    requires IsUnit(u)
    ensures Units(u + "/" + b) == [u] + Units(b)
  {
    hide Units;
    UnitsAtSlash(u, b);
    OneUnit(u);
  }

  /** A doubled slash and a dot change nothing, wherever they stand; once a path has failed, it has failed. */
  lemma NothingChanges(a: string, b: string)
    ensures Resolve(a + "/" + ("/" + b)) == Resolve(a + "/" + b)
    ensures Resolve(a + "/" + ("." + "/" + b)) == Resolve(a + "/" + b)
    ensures Resolve(a) == None ==> Resolve(a + "/" + b) == None
  {
    hide Units, Fold;
    GoOn(a, b);
    GoOn(a, "/" + b);
    GoOn(a, "." + "/" + b);
    UnitThen(".", b);
    UnitsAtSlash("", b);
    TokensEmpty();
    assert "" + "/" + b == "/" + b && [] + Units(b) == Units(b);
    if Resolve(a).Some? {
      FoldFirst(Units(Resolve(a).value), ".", Units(b));
    }
  }

  lemma FoldFirst(st: seq<string>, u: string, us: seq<string>)
    ensures Fold(st, [u] + us) ==
      if u == "." then Fold(st, us)
      else if u == ".." then if st == [] then None else Fold(st[..|st| - 1], us)
      else if |st| >= 15 then None
      else Fold(st + [u], us)
  {
    assert ([u] + us)[1..] == us;
  }

  /**
   A name goes down one directory, at most fifteen deep, and two dots go back up; from the root there is no way up.
   */
  lemma DownAndUp(a: string, u: string, b: string)
    requires Resolve(a).Some? && IsName(u)
    ensures var r := Resolve(a).value;
            var deep := |Units(r)| >= 15;
            && (r == "/" ==> Resolve(a + "/" + (".." + "/" + b)) == None)
            && (deep ==> Resolve(a + "/" + (u + "/" + b)) == None)
            && (!deep ==> Resolve(a + "/" + u) == Some((if r == "/" then "" else r) + "/" + u))
            && (!deep ==> Resolve(a + "/" + (u + "/" + (".." + "/" + b))) == Resolve(a + "/" + b))
  {
    hide Units, Fold, Printed;
    var st := Units(Resolve(a).value);
    GoOn(a, b);
    GoOn(a, u);
    GoOn(a, ".." + "/" + b);
    GoOn(a, u + "/" + b);
    GoOn(a, u + "/" + (".." + "/" + b));
    OneUnit(u);
    UnitThen("..", b);
    UnitThen(u, b);
    UnitThen(u, ".." + "/" + b);
    FoldFirst(st, "..", Units(b));
    FoldFirst(st, u, Units(b));
    FoldFirst(st, u, [".."] + Units(b));
    FoldFirst(st + [u], "..", Units(b));
    FoldFirst(st, u, []);
    FoldNothing(st + [u]);
    assert [u] + [] == [u] && (st + [u])[..|st|] == st;
    RenderIs(st, u);
  }

  lemma FoldNothing(st: seq<string>)
    ensures Fold(st, []) == Some(st)
  {
  }

  lemma RenderIs(st: seq<string>, u: string)
    requires Canonical(st)
    ensures Render(st) == "/" <==> st == []
    ensures Render(st + [u]) == (if st == [] then "" else Render(st)) + "/" + u
  {
    hide Printed;
    assert (st + [u])[..|st|] == st;
    PrintedSnoc(st, u);
    if st != [] {
      PrintedNotRoot(st);
    }
  }

  lemma PrintedSnoc(st: seq<string>, u: string)
    ensures Printed([]) == "" && Printed(st + [u]) == Printed(st) + "/" + u
  {
    assert (st + [u])[..|st|] == st;
  }

  /** An absolute path is resolved for itself, whatever the working directory. */
  lemma AbsoluteForItself(path: string, cwd: Option<string>)
    requires path != "" && path[0] == '/'
    ensures Returned(Joined(path, cwd)) == Resolve(path)
  {
    hide Returned, Resolve;
    SlashedIsResolved(path);
  }

  /** A relative path goes on from an absolute working directory. */
  lemma RelativeGoesOn(path: string, cwd: string)
    requires (path == "" || path[0] != '/') && cwd != "" && cwd[0] == '/'
    ensures Returned(Joined(path, Some(cwd))) == Resolve(cwd + "/" + path)
  {
    hide Fold, Units, Printed;
    JoinedUnits(path, cwd);
    UnitsAtSlash(cwd, path);
    SlashedIsResolved(Joined(path, Some(cwd)));
  }

  lemma NothingResolves()
    ensures Resolve("") == Some("/")
  {
  }

  lemma ResolvedStarts(p: string)
    requires Resolve(p).Some?
    ensures Resolve(p).value != "" && Resolve(p).value[0] == '/'
  {
    var st := Fold([], Units(p)).value;
    if st != [] {
      PrintedLength(st);
    }
  }

  /** Folding on from the components of the resolved path is folding on from where it was. */
  lemma SameFold(p: string, q: string)
    requires Resolve(p).Some?
    ensures Fold([], Units(Resolve(p).value) + Units(q)) == Fold([], Units(p) + Units(q))
  {
    var st := Fold([], Units(p)).value;
    UnitsAreUnits(p);
    FoldIsCanonical([], Units(p));
    UnitsOfRender(st);
    assert [] + st == st;
    FoldCanonical([], st);
    FoldConcat([], Units(p), Units(q));
    FoldConcat([], st, Units(q));
  }

  /** Joining puts the components together, with or without the extra slash. */
  lemma JoinedUnits(q: string, cwd: string)
    requires cwd != "" && (q == "" || q[0] != '/')
    ensures Units(Joined(q, Some(cwd))) == Units(cwd) + Units(q)
    ensures Joined(q, Some(cwd)) != "" && Joined(q, Some(cwd))[0] == cwd[0]
  {
    hide Units;
    TokensEmpty();
    var n := |cwd| - 1;
    if cwd[n] == '/' {
      var front := cwd[..n];
      assert cwd == front + "/" + "" && Joined(q, Some(cwd)) == front + "/" + q;
      UnitsAtSlash(front, "");
      UnitsAtSlash(front, q);
    } else {
      UnitsAtSlash(cwd, q);
    }
  }
}

/** Allocation and release on the segment tree: every run keeps the live blocks apart. */
module HeapRuns {
  import opened HeapTree

  const UNIT := 16
  const SIZE_LIMIT := 0x1_0000_0000_0000_0000
  const MIN_INT := -0x8000_0000

  /** So many units that indices and block addresses stay inside an int. */
  const MAX_UNITS := 0x800_0000

  type ByteCount = x: int | 0 <= x < SIZE_LIMIT

  /** The int that a number becomes. */
  function Wrap(x: int): int { (x - MIN_INT) % 0x1_0000_0000 + MIN_INT }

  /** The units requested for a size in bytes: the sum wraps at 64 bits, and the quotient becomes an int. */
  function Count(size: ByteCount): int { Wrap((size + UNIT - 1) % SIZE_LIMIT / UNIT) }

  /** The last unit of a block. */
  function LastUnit(s: int, count: int): int { Wrap(s + count - 1) }

  lemma SmallStays(x: int)
    requires MIN_INT <= x < -MIN_INT
    ensures Wrap(x) == x
  {
  }

  /** The heap: its tree, the recorded block lengths, and the blocks handed out and not released. */
  datatype Heap = Heap(tree: Tree, length: seq<int>, live: map<int, int>)

  function Fresh(n: nat): Heap
    requires n >= 1
  {
    Heap(Init(0, n - 1), seq(n, _ => 0), map[])
  }

  /** A request for `count` units: the new heap and the first unit, or -1. */
  function Alloc(h: Heap, count: int): (Heap, int) {
    var s := FindSpace(h.tree, count);
    if 0 <= s < |h.length| then
      (Heap(Update(h.tree, s, LastUnit(s, count), 1), h.length[s := count], h.live[s := count]), s)
    else (h, -1)
  }

  /** The release of the block recorded at unit `s`. */
  function Release(h: Heap, s: int): Heap {
    if 0 <= s < |h.length| then Heap(Update(h.tree, s, LastUnit(s, h.length[s]), -1), h.length, h.live - {s}) else h
  }

  ghost predicate InBlock(h: Heap, s: int, u: int) { s in h.live && s <= u < s + h.live[s] }

  ghost predicate InSomeBlock(h: Heap, u: int) { exists s :: InBlock(h, s, u) }

  ghost predicate BlocksApart(h: Heap) {
    forall s, s', u :: InBlock(h, s, u) && InBlock(h, s', u) ==> s == s'
  }

  /** A unit is taken exactly when a live block holds it. */
  ghost predicate Exact(h: Heap) {
    forall u :: 0 <= u < |h.length| ==> (Taken(h.tree, u) <==> InSomeBlock(h, u))
  }

  ghost predicate BlocksRecorded(h: Heap) {
    var n := |h.length|;
    forall s :: s in h.live ==> 0 <= s && 1 <= h.live[s] && s + h.live[s] <= n && h.length[s] == h.live[s]
  }

  /** One live block covers the whole heap. */
  ghost predicate WholeBlock(h: Heap) { 0 in h.live && h.live[0] == |h.length| }

  /** The root is marked as taken only while one block covers the whole heap. */
  ghost predicate Valid(h: Heap) {
    var n := |h.length|;
    && 2 <= n <= MAX_UNITS && Good(h.tree, 0, n - 1) && (h.tree.info.mark == 1 ==> WholeBlock(h))
    && BlocksRecorded(h) && BlocksApart(h) && Exact(h)
  }

  lemma FreshValid(n: nat)
    requires 2 <= n <= MAX_UNITS
    ensures Valid(Fresh(n))
  {
    hide Sound, Bounded, Shaped, Taken;
    InitGood(0, n - 1);
  }

  /** An update of a part of the range leaves the root unmarked, one of the whole range marks it. */
  lemma RootMark(t: Tree, l: int, r: int, from: int, to: int, mark: int)
    requires Shaped(t, l, r) && l <= from <= to <= r && mark in {-1, 1}
    ensures Update(t, from, to, mark).info.mark == if from == l && to == r then mark else 0
  {
    UpdateCases(t, l, r, from, to, mark);
  }

  lemma {:induction false} FindNothing(t: Tree, l: int, r: int, count: int)
    requires Shaped(t, l, r) && Bounded(t) && count <= 0
    ensures FindSpace(t, count) == l
  {
    if t.Fork? {
      FindNothing(t.left, l, t.info.mid, count);
    }
  }

  /** Whatever the request, the search answers -1 or a unit of the heap. */
  lemma AllocInRange(h: Heap, count: int)
    requires |h.length| >= 1 && Good(h.tree, 0, |h.length| - 1)
    ensures var s := FindSpace(h.tree, count); s == -1 || 0 <= s < |h.length|
  {
    hide Sound, Bounded, Shaped;
    if count <= 0 {
      FindNothing(h.tree, 0, |h.length| - 1, count);
    } else {
      FindInRange(h.tree, 0, |h.length| - 1, count);
    }
  }

  /** While no block covers the whole heap, a request either fails or gets units no live block holds. */
  lemma AllocKeepsValid(h: Heap, count: nat)
    requires Valid(h) && count >= 1 && !WholeBlock(h)
    ensures var (h', s) := Alloc(h, count);
            && Valid(h')
            && (s == -1 ==> h' == h)
            && (s != -1 ==> 0 <= s && s + count <= |h.length| && s !in h.live && h'.live == h.live[s := count])
            && (s != -1 ==> forall u :: s <= u < s + count ==> !InSomeBlock(h, u))
  {
    hide Sound, Bounded, Shaped, Taken, Update, Wrap;
    var n := |h.length|;
    FindIsFree(h.tree, 0, n - 1, count);
    var s := FindSpace(h.tree, count);
    if s != -1 {
      SmallStays(s + count - 1);
      UpdateFills(h.tree, 0, n - 1, s, s + count - 1, 1);
      RootMark(h.tree, 0, n - 1, s, s + count - 1, 1);
      forall u | s <= u < s + count
        ensures !InSomeBlock(h, u)
      {
      }
      var (h', _) := Alloc(h, count);
      assert s in h.live ==> InBlock(h, s, s);
      assert !InSomeBlock(h, s);
      AllocExact(h, h', s, count);
    }
  }

  lemma AllocExact(h: Heap, h': Heap, s: int, count: nat)
    requires h'.live == h.live[s := count] && s !in h.live && |h'.length| == |h.length|
    requires BlocksApart(h) && Exact(h)
    requires forall u :: s <= u < s + count ==> !InSomeBlock(h, u)
    requires forall u :: 0 <= u < |h.length| ==>
      (Taken(h'.tree, u) <==> if s <= u < s + count then true else Taken(h.tree, u))
    ensures BlocksApart(h') && Exact(h')
  {
    hide Taken;
    forall q, u
      ensures InBlock(h', q, u) <==> (if q == s then s <= u < s + count else InBlock(h, q, u))
    {
    }
    forall q, q', u | InBlock(h', q, u) && InBlock(h', q', u)
      ensures q == q'
    {
      assert InBlock(h, q, u) ==> InSomeBlock(h, u);
      assert InBlock(h, q', u) ==> InSomeBlock(h, u);
    }
    forall u | 0 <= u < |h.length|
      ensures InSomeBlock(h', u) <==> InSomeBlock(h, u) || s <= u < s + count
    {
      if InSomeBlock(h, u) {
        var q :| InBlock(h, q, u);
        assert InBlock(h', q, u);
      }
      if s <= u < s + count {
        assert InBlock(h', s, u);
      }
    }
  }

  /** Releasing a live block frees exactly its units. */
  lemma ReleaseKeepsValid(h: Heap, s: int)
    requires Valid(h) && s in h.live
    ensures var h' := Release(h, s);
            Valid(h') && h'.live == h.live - {s} && FreeRun(h'.tree, s, h.live[s])
  {
    hide Sound, Bounded, Shaped, Taken, Update, Wrap;
    var n := |h.length|;
    var to := s + h.live[s] - 1;
    SmallStays(to);
    UpdateFills(h.tree, 0, n - 1, s, to, -1);
    RootMark(h.tree, 0, n - 1, s, to, -1);
    var h' := Release(h, s);
    forall q, u
      ensures InBlock(h', q, u) <==> q != s && InBlock(h, q, u)
    {
    }
    forall u | 0 <= u < n
      ensures InSomeBlock(h', u) <==> InSomeBlock(h, u) && !(s <= u <= to)
    {
      if InSomeBlock(h, u) {
        var q :| InBlock(h, q, u);
        if s <= u <= to {
          assert InBlock(h, s, u);
        } else {
          assert InBlock(h', q, u);
        }
      }
    }
  }

  // ----- whole runs -----

  datatype Op = Malloc(size: ByteCount) | Free(start: int)

  /** Requests that come to a positive count while no block covers the whole heap; releases of live blocks only. */
  ghost predicate Legal(h: Heap, op: Op) {
    match op
    case Malloc(size) => Count(size) > 0 && !WholeBlock(h)
    case Free(s) => s in h.live
  }

  function Step(h: Heap, op: Op): Heap {
    match op
    case Malloc(size) => Alloc(h, Count(size)).0
    case Free(s) => Release(h, s)
  }

  function Run(h: Heap, ops: seq<Op>): Heap
    decreases |ops|
  {
    if ops == [] then h else Run(Step(h, ops[0]), ops[1..])
  }

  ghost predicate LegalRun(h: Heap, ops: seq<Op>)
    decreases |ops|
  {
    ops == [] || (Legal(h, ops[0]) && LegalRun(Step(h, ops[0]), ops[1..]))
  }

  /** Over every legal run from a fresh heap the live blocks are in bounds, apart, and exactly the taken units. */
  lemma {:induction false} RunsKeepBlocksApart(h: Heap, ops: seq<Op>)
    requires Valid(h) && LegalRun(h, ops)
    ensures Valid(Run(h, ops))
    decreases |ops|
  {
    hide Valid, Alloc, Release, Wrap;
    if ops != [] {
      match ops[0] {
        case Malloc(size) =>
          AllocKeepsValid(h, Count(size));
        case Free(s) =>
          ReleaseKeepsValid(h, s);
      }
      RunsKeepBlocksApart(Step(h, ops[0]), ops[1..]);
    }
  }

  // ----- the size of a block -----

  /** The largest size whose units are a positive int. */
  const MAX_REQUEST := 0x7_ffff_fff0

  /** A block has room for the bytes requested exactly up to that size; beyond it the count is cut off. */
  lemma CountCoversIff(size: ByteCount)
    ensures size <= UNIT * Count(size) <==> size <= MAX_REQUEST
    ensures 0 < size <= MAX_REQUEST ==> 0 < Count(size) && UNIT * (Count(size) - 1) < size
  {
    hide Wrap;
    var q := (size + UNIT - 1) % SIZE_LIMIT / UNIT;
    WrapRange(q);
    if size <= MAX_REQUEST {
      SmallStays(q);
    }
  }

  lemma WrapRange(x: int)
    ensures MIN_INT <= Wrap(x) < -MIN_INT
  {
  }

  /** A request that succeeds gets units of its own, and as many bytes as requested exactly up to the largest size. */
  lemma AllocServesIff(h: Heap, size: ByteCount)
    requires Valid(h) && Legal(h, Malloc(size)) && Alloc(h, Count(size)).1 != -1
    ensures var (h', s) := Alloc(h, Count(size));
            && Valid(h') && s !in h.live && s in h'.live
            && (size <= UNIT * h'.live[s] <==> size <= MAX_REQUEST)
  {
    hide Valid, Alloc, Count;
    CountCoversIff(size);
    AllocKeepsValid(h, Count(size));
  }

  /** A request for more than 64 GiB gets one unit of sixteen bytes. */
  lemma CutOffExample(n: nat)
    requires 2 <= n <= MAX_UNITS
    ensures var (h, s) := Alloc(Fresh(n), Count(0x10_0000_0010));
            Legal(Fresh(n), Malloc(0x10_0000_0010)) && s == 0 && h.live == map[0 := 1]
  {
    hide Update, FindSpace, Init;
    assert Count(0x10_0000_0010) == 1;
    InitFind(0, n - 1, 1);
  }

  // ----- the requests a legal run leaves out -----

  /** A request that succeeds is apart from the live blocks exactly if none of them covers the whole heap. */
  lemma AllocApartIff(h: Heap, count: nat)
    requires Valid(h) && count >= 1 && FindSpace(h.tree, count) != -1
    ensures var s := FindSpace(h.tree, count);
            (forall u :: s <= u < s + count ==> !InSomeBlock(h, u)) <==> !WholeBlock(h)
  {
    hide Sound, Bounded, Shaped, Taken, FindSpace;
    var s := FindSpace(h.tree, count);
    FindInRange(h.tree, 0, |h.length| - 1, count);
    if WholeBlock(h) {
      assert InBlock(h, 0, s);
      assert InSomeBlock(h, s);
    } else {
      AllocKeepsValid(h, count);
    }
  }

  /** After a first request on a fresh heap, a second one stays off its block iff that block is not the whole heap. */
  lemma SecondBlockApartIff(n: nat, count: nat, second: nat)
    requires 2 <= n <= MAX_UNITS && 1 <= count <= n && 1 <= second <= n
    ensures var (h1, s1) := Alloc(Fresh(n), count);
            var (h2, s2) := Alloc(h1, second);
            s1 == 0 && (s2 == -1 || count <= s2 <==> count != n)
  {
    hide Sound, Bounded, Shaped, Taken, Update, Wrap;
    SmallStays(count - 1);
    var h := Fresh(n);
    var (h1, s1) := Alloc(h, count);
    InitFind(0, n - 1, count);
    FreshValid(n);
    if count != n {
      AllocKeepsValid(h, count);
      AllocKeepsValid(h1, second);
      var (h2, s2) := Alloc(h1, second);
      if s2 != -1 {
        assert !InSomeBlock(h1, s2);
        assert !InBlock(h1, 0, s2);
      }
    } else {
      InitGood(0, n - 1);
      UpdateCases(h.tree, 0, n - 1, 0, n - 1, 1);
      MarkRootFind(h.tree, 1, second);
      InitFind(0, n - 1, second);
    }
  }

  /** A mark on the root is invisible to the search, which starts at the root's split caches. */
  lemma MarkRootFind(t: Tree, mark: int, size: int)
    requires t.Fork?
    ensures FindSpace(MarkRoot(t, mark), size) == FindSpace(t, size)
  {
  }

  /**
   A request that comes to a count of zero or less gets unit 0 and overwrites the length recorded there: harmless
   exactly if no block lives there, and the count is not the lowest int, for which the last unit wraps around.
   */
  lemma EmptyRequestIff(h: Heap, count: int)
    requires Valid(h) && MIN_INT <= count <= 0
    ensures var (h', s) := Alloc(h, count);
            s == 0 && (Exact(h') <==> count > MIN_INT && 0 !in h.live)
  {
    hide Sound, Taken, Update, Wrap;
    var n := |h.length|;
    FindNothing(h.tree, 0, n - 1, count);
    var (h', s) := Alloc(h, count);
    assert forall q :: !InBlock(h', q, 0);
    if count > MIN_INT {
      SmallStays(count - 1);
      UpdateCases(h.tree, 0, n - 1, 0, count - 1, 1);
      NothingTaken(h, h', count);
    } else {
      LowestWraps();
      UpdateFills(h.tree, 0, n - 1, 0, 0x7fff_ffff, 1);
      assert Taken(h'.tree, 0);
    }
  }

  lemma LowestWraps()
    ensures LastUnit(0, MIN_INT) == 0x7fff_ffff
  {
  }

  lemma NothingTaken(h: Heap, h': Heap, count: int)
    requires Exact(h) && BlocksRecorded(h) && count <= 0 && |h'.length| == |h.length| >= 1
    requires h' == Heap(h.tree, h'.length, h.live[0 := count])
    ensures Exact(h') <==> 0 !in h.live
  {
    hide Taken;
    if 0 in h.live {
      assert InBlock(h, 0, 0);
      assert Taken(h.tree, 0);
      assert forall q :: !InBlock(h', q, 0);
    } else {
      forall u
        ensures InSomeBlock(h', u) <==> InSomeBlock(h, u)
      {
        forall q ensures InBlock(h', q, u) <==> InBlock(h, q, u) {}
      }
    }
  }

  /** Sizes whose count is no positive number: nothing at all, just above 32 GiB, and the last fifteen. */
  lemma EmptyRequestExamples()
    ensures Count(0) == 0 && Count(0x8_0000_0000) == MIN_INT && Count(0x8_0000_0010) == MIN_INT + 1
    ensures Count(0xffff_ffff_ffff_ffff) == 0
  {
  }
}

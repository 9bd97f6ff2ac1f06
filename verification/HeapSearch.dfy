/** When a search for free units succeeds, and where. */
module HeapSearch {
  import opened Arithmetic
  import opened HeapTree
  import HeapRuns

  // ----- the search on a tree -----

  /** The longest run the search can end with, going by what a node says of itself. */
  function Promise(t: Tree): int {
    if t.Leaf? then t.info.max
    else Max(t.info.leftMax, Max(t.info.rightMax, t.info.leftRight + t.info.rightLeft))
  }

  /** No node says more of a son than the son can keep. */
  ghost predicate Honest(t: Tree) {
    t.Fork? ==>
      && t.info.leftMax <= Promise(t.left) && t.info.rightMax <= Promise(t.right)
      && Honest(t.left) && Honest(t.right)
  }

  /**
   In an honest tree the search succeeds exactly up to what the root promises, and it answers in the left half if that
   says it can, else in the right half if that does, else across the middle.
   */
  lemma {:induction false} SearchIff(t: Tree, l: int, r: int, size: int)
    requires Shaped(t, l, r) && Bounded(t) && Honest(t) && l >= 0 && size >= 1
    ensures FindSpace(t, size) != -1 <==> size <= Promise(t)
    ensures t.Fork? && size <= Promise(t) ==>
              var s, mid := FindSpace(t, size), t.info.mid;
              if size <= t.info.leftMax then l <= s && s + size - 1 <= mid
              else if size <= t.info.rightMax then mid < s && s + size - 1 <= r
              else s == mid + 1 - t.info.leftRight
  {
    if t.Fork? {
      SearchIff(t.left, l, t.info.mid, size);
      SearchIff(t.right, t.info.mid + 1, r, size);
      FindInRange(t.left, l, t.info.mid, size);
      FindInRange(t.right, t.info.mid + 1, r, size);
    }
  }

  // ----- trees from which nothing has been released -----

  /** What the nodes in use say of themselves: their sons' runs, and not less than those. */
  ghost predicate Tight(t: Tree) {
    t.Fork? && t.info.mark == 0 ==>
      && t.info.leftMax == t.left.info.max && t.info.rightMax == t.right.info.max
      && Max(t.info.leftMax, t.info.rightMax) <= t.info.max
      && Tight(t.left) && Tight(t.right)
  }

  /** No node is marked as free. */
  ghost predicate OnlyTaken(t: Tree) {
    t.info.mark != -1 && (t.Fork? ==> OnlyTaken(t.left) && OnlyTaken(t.right))
  }

  /** A range in use without a taken unit is known to be free as a whole. */
  ghost predicate Kept(t: Tree) {
    && (FreeRun(t, t.info.l, Size(t.info)) ==> t.info.max == Size(t.info))
    && (t.Fork? && t.info.mark == 0 ==> Kept(t.left) && Kept(t.right))
  }

  /** A tree that knows all free ranges that halving leads to. */
  ghost predicate Ample(t: Tree) {
    Honest(t) && t.info.max <= Promise(t) && Tight(t) && OnlyTaken(t)
  }

  lemma {:induction false} InitAmple(l: int, r: int)
    requires l <= r
    ensures Ample(Init(l, r)) && Init(l, r).info.mark == 0 && Init(l, r).info.max == r - l + 1
    decreases r - l
  {
    hide Init;
    if l < r {
      InitFork(l, r);
      InitAmple(l, (l + r) / 2);
      InitAmple((l + r) / 2 + 1, r);
    } else {
      InitLeaf(l);
    }
  }

  lemma {:induction false} InitKept(l: int, r: int)
    requires l <= r
    ensures Kept(Init(l, r)) && Init(l, r).info.l == l && Init(l, r).info.r == r && Init(l, r).info.max == r - l + 1
    decreases r - l
  {
    hide Init, FreeRun;
    if l < r {
      InitFork(l, r);
      InitKept(l, (l + r) / 2);
      InitKept((l + r) / 2 + 1, r);
    } else {
      InitLeaf(l);
    }
  }

  /** A mark, passed on or set, changes nothing that the search goes by, except at a leaf. */
  lemma MarkAmple(t: Tree, mark: int)
    requires Honest(t) && OnlyTaken(t) && Bounded(t) && (mark == 1 || (mark == 0 && Ample(t)))
    ensures Ample(MarkRoot(t, mark))
  {
  }

  lemma PushDownAmple(t: Tree)
    requires Ample(t) && Bounded(t) && t.Fork?
    ensures Ample(PushDown(t).left) && Ample(PushDown(t).right)
  {
    MarkAmple(t.left, t.info.mark);
    MarkAmple(t.right, t.info.mark);
  }

  lemma RejoinedAmple(d: Tree, a: Tree, b: Tree)
    requires d.info.mark == 0 && Ample(a) && Ample(b)
    ensures Ample(Rejoined(d, a, b))
  {
  }

  /** Taking units keeps the tree honest and tight. */
  lemma {:induction false} TakingKeepsAmple(t: Tree, l: int, r: int, from: int, to: int)
    requires Good(t, l, r) && Ample(t)
    ensures Ample(Update(t, from, to, 1))
    decreases Height(t)
  {
    hide Ample, Sound, Bounded, Update, Rejoined, MarkRoot;
    var lo, hi := Max(from, l), Min(to, r);
    UpdateCases(t, l, r, from, to, 1);
    if lo <= hi {
      if lo == l && hi == r {
        AmpleParts(t);
        MarkAmple(t, 1);
      } else {
        PushDownGood(t, l, r);
        PushDownAmple(t);
        var d := PushDown(t);
        TakingKeepsAmple(d.left, l, d.info.mid, lo, hi);
        TakingKeepsAmple(d.right, d.info.mid + 1, r, lo, hi);
        RejoinedAmple(d, Update(d.left, lo, hi, 1), Update(d.right, lo, hi, 1));
      }
    }
  }

  lemma AmpleParts(t: Tree)
    requires Ample(t)
    ensures Honest(t) && OnlyTaken(t) && t.info.max <= Promise(t)
  {
  }

  lemma MarkKept(t: Tree, mark: int)
    requires Size(t.info) >= 1 && (mark == 1 || (mark == 0 && Kept(t)))
    ensures Kept(MarkRoot(t, mark))
  {
    if mark == 1 {
      assert Taken(MarkRoot(t, 1), t.info.l);
    }
  }

  lemma PushDownKept(t: Tree, l: int, r: int)
    requires Kept(t) && OnlyTaken(t) && Bounded(t) && Shaped(t, l, r) && t.Fork?
    ensures Kept(PushDown(t).left) && Kept(PushDown(t).right)
  {
    MarkKept(t.left, t.info.mark);
    MarkKept(t.right, t.info.mark);
  }

  /** After units have been taken, a range that is still free was not touched. */
  lemma {:induction false} TakingKeepsKept(t: Tree, l: int, r: int, from: int, to: int)
    requires Good(t, l, r) && Ample(t) && Kept(t)
    ensures Kept(Update(t, from, to, 1))
    decreases Height(t)
  {
    hide Ample, Sound, Bounded, Update, MarkRoot, Taken;
    var lo, hi := Max(from, l), Min(to, r);
    UpdateCases(t, l, r, from, to, 1);
    if lo <= hi {
      if lo == l && hi == r {
        MarkKept(t, 1);
      } else {
        PushDownGood(t, l, r);
        PushDownAmple(t);
        AmpleParts(t);
        PushDownKept(t, l, r);
        var d := PushDown(t);
        TakingKeepsKept(d.left, l, d.info.mid, lo, hi);
        TakingKeepsKept(d.right, d.info.mid + 1, r, lo, hi);
        UpdateFills(t, l, r, from, to, 1);
        assert Taken(Update(t, from, to, 1), lo);
      }
    }
  }

  /** The range `a..b` comes from `l..r` by halving. */
  predicate Halved(l: int, r: int, a: int, b: int)
    decreases r - l
  {
    (a == l && b == r) ||
    (l < r && var mid := (l + r) / 2; Halved(l, mid, a, b) || Halved(mid + 1, r, a, b))
  }

  lemma {:induction false} HalvedInside(l: int, r: int, a: int, b: int)
    requires Halved(l, r, a, b) && l <= r
    ensures l <= a <= b <= r
    decreases r - l
  {
    if !(a == l && b == r) {
      var mid := (l + r) / 2;
      if Halved(l, mid, a, b) {
        HalvedInside(l, mid, a, b);
      } else {
        HalvedInside(mid + 1, r, a, b);
      }
    }
  }

  /** A free run inside one half is a free run of that son. */
  lemma RunsOfSon(t: Tree, from: int, n: int)
    requires t.Fork? && t.info.mark == 0 && FreeRun(t, from, n)
    ensures from + n <= t.info.mid + 1 ==> FreeRun(t.left, from, n)
    ensures t.info.mid < from ==> FreeRun(t.right, from, n)
  {
    forall u: int
      ensures from <= u < from + n && u <= t.info.mid ==> !Taken(t.left, u)
      ensures from <= u < from + n && u > t.info.mid ==> !Taken(t.right, u)
    {
      TakenFork(t, u);
    }
  }

  /** A free range that halving leads to is known at the root. */
  lemma {:induction false} HalvedIsKnown(t: Tree, l: int, r: int, a: int, b: int)
    requires Good(t, l, r) && Ample(t) && Kept(t) && Halved(l, r, a, b) && FreeRun(t, a, b - a + 1)
    ensures b - a + 1 <= t.info.max
  {
    HalvedInside(l, r, a, b);
    assert !Taken(t, a);
    if !(a == l && b == r) {
      var mid := (l + r) / 2;
      RunsOfSon(t, a, b - a + 1);
      if Halved(l, mid, a, b) {
        HalvedInside(l, mid, a, b);
        HalvedIsKnown(t.left, l, mid, a, b);
      } else {
        HalvedInside(mid + 1, r, a, b);
        HalvedIsKnown(t.right, mid + 1, r, a, b);
      }
    }
  }

  // ----- runs of requests -----

  /** The heap after one request after the other. */
  function Requested(n: nat, counts: seq<nat>): HeapRuns.Heap
    requires n >= 1
  {
    if counts == [] then HeapRuns.Fresh(n)
    else
      var k := |counts| - 1;
      HeapRuns.Alloc(Requested(n, counts[..k]), counts[k]).0
  }

  ghost predicate Ready(h: HeapRuns.Heap, n: nat) {
    |h.length| == n >= 2 && Good(h.tree, 0, n - 1) && Ample(h.tree) && Kept(h.tree)
  }

  lemma AllocKeepsReady(h: HeapRuns.Heap, n: nat, count: nat)
    requires Ready(h, n) && 1 <= count && n <= HeapRuns.MAX_UNITS
    ensures Ready(HeapRuns.Alloc(h, count).0, n)
  {
    hide Good, Ample, Kept, Update, FindSpace, Taken, Shaped, Bounded, HeapRuns.Wrap;
    var s := FindSpace(h.tree, count);
    GoodParts(h.tree, 0, n - 1);
    FindInRange(h.tree, 0, n - 1, count);
    if s != -1 {
      HeapRuns.SmallStays(s + count - 1);
      UpdateFills(h.tree, 0, n - 1, s, s + count - 1, 1);
      TakingKeepsAmple(h.tree, 0, n - 1, s, s + count - 1);
      TakingKeepsKept(h.tree, 0, n - 1, s, s + count - 1);
    }
  }

  lemma GoodParts(t: Tree, l: int, r: int)
    requires Good(t, l, r)
    ensures Shaped(t, l, r) && Bounded(t)
  {
  }

  lemma {:induction false} RequestsKeepReady(n: nat, counts: seq<nat>)
    requires 2 <= n <= HeapRuns.MAX_UNITS && forall i :: 0 <= i < |counts| ==> counts[i] >= 1
    ensures Ready(Requested(n, counts), n)
  {
    hide Ready, HeapRuns.Alloc;
    if counts == [] {
      FreshReady(n);
    } else {
      var k := |counts| - 1;
      RequestsKeepReady(n, counts[..k]);
      AllocKeepsReady(Requested(n, counts[..k]), n, counts[k]);
    }
  }

  lemma FreshReady(n: nat)
    requires n >= 2
    ensures Ready(HeapRuns.Fresh(n), n)
  {
    hide Good, Ample, Kept, Init;
    InitGood(0, n - 1);
    InitAmple(0, n - 1);
    InitKept(0, n - 1);
  }

  /** Halving the heap leads to the range `a..b`, and all of it is free. */
  ghost predicate IsFreeHalf(t: Tree, n: nat, a: int, b: int) { Halved(0, n - 1, a, b) && FreeRun(t, a, b - a + 1) }

  /**
   After any requests, without a release between them, the next one succeeds exactly up to what the root promises,
   and in particular whenever a range that halving leads to is free and large enough.
   */
  lemma RequestSucceedsIff(n: nat, counts: seq<nat>, count: nat)
    requires 2 <= n <= HeapRuns.MAX_UNITS && count >= 1 && forall i :: 0 <= i < |counts| ==> counts[i] >= 1
    ensures var h := Requested(n, counts);
            && (HeapRuns.Alloc(h, count).1 != -1 <==> count <= Promise(h.tree))
            && forall a, b :: IsFreeHalf(h.tree, n, a, b) && count <= b - a + 1 ==> HeapRuns.Alloc(h, count).1 != -1
  {
    hide Requested, Good, Ample, Kept, Update, Promise, FindSpace;
    var h := Requested(n, counts);
    RequestsKeepReady(n, counts);
    GoodParts(h.tree, 0, n - 1);
    AmpleParts(h.tree);
    SearchIff(h.tree, 0, n - 1, count);
    FindInRange(h.tree, 0, n - 1, count);
    forall a, b | IsFreeHalf(h.tree, n, a, b) && count <= b - a + 1
      ensures count <= Promise(h.tree)
    {
      HalvedIsKnown(h.tree, 0, n - 1, a, b);
    }
  }

  /**
   Two requests on a fresh heap: if the first fits into the left half and the second into the right half, the first
   begins at unit 0 and the second behind it.
   */
  lemma TwoRequests(n: nat, first: nat, second: nat)
    requires 2 <= n <= HeapRuns.MAX_UNITS
    requires 1 <= first <= (n - 1) / 2 + 1 && 1 <= second <= n - 1 - (n - 1) / 2
    ensures var (h, a) := HeapRuns.Alloc(HeapRuns.Fresh(n), first);
            var b := HeapRuns.Alloc(h, second).1;
            a == 0 && first <= b <= n - second
  {
    hide Good, Ample, Kept, Update, Promise, FindSpace, Init, HeapRuns.Wrap;
    var f := HeapRuns.Fresh(n);
    FreshReady(n);
    InitGood(0, n - 1);
    InitFind(0, n - 1, first);
    AllocKeepsReady(f, n, first);
    HeapRuns.SmallStays(first - 1);
    UpdateFills(f.tree, 0, n - 1, 0, first - 1, 1);
    GoodParts(f.tree, 0, n - 1);
    HeapRuns.RootMark(f.tree, 0, n - 1, 0, first - 1, 1);
    var h := HeapRuns.Alloc(f, first).0;
    SecondFits(h.tree, n, first, second);
  }

  lemma SecondFits(t: Tree, n: nat, first: nat, second: nat)
    requires n >= 2 && Good(t, 0, n - 1) && Ample(t) && Kept(t) && t.info.mark == 0
    requires 1 <= first <= (n - 1) / 2 + 1 && 1 <= second <= n - 1 - (n - 1) / 2
    requires forall u :: 0 <= u < n ==> (Taken(t, u) <==> u < first)
    ensures first <= FindSpace(t, second) <= n - second
  {
    hide Good, Ample, Kept, Promise, Taken;
    var mid := (n - 1) / 2;
    assert Halved(0, n - 1, mid + 1, n - 1);
    HalvedIsKnown(t, 0, n - 1, mid + 1, n - 1);
    AmpleParts(t);
    GoodParts(t, 0, n - 1);
    SearchIff(t, 0, n - 1, second);
    FindIsFree(t, 0, n - 1, second);
    assert !Taken(t, FindSpace(t, second));
  }

  /** A fork that finds no room on the left and whose right son is fresh answers the first unit of the right son. */
  lemma FreshRightSon(t: Tree, l: int, r: int, size: int)
    requires Shaped(t, l, r) && Bounded(t) && t.Fork? && l >= 0 && size >= 1
    requires t.right == Init(t.info.mid + 1, r) && t.info.leftMax < size <= t.info.rightMax
    ensures FindSpace(t, size) == t.info.mid + 1
  {
    hide Init;
    InitGood(t.info.mid + 1, r);
    InitFind(t.info.mid + 1, r, size);
  }

  // ----- what the search misses -----

  /** The caches are the lengths of the longest free runs, no less. */
  ghost predicate Exact(t: Tree) {
    var i := t.info;
    && 0 <= i.leftBorder <= Size(i) && FreeRun(t, i.l, i.leftBorder)
    && (i.leftBorder < Size(i) ==> Taken(t, i.l + i.leftBorder))
    && 0 <= i.rightBorder <= Size(i) && FreeRun(t, i.r - i.rightBorder + 1, i.rightBorder)
    && (i.rightBorder < Size(i) ==> Taken(t, i.r - i.rightBorder))
    && HasRun(t, i.max) && forall n :: HasRun(t, n) ==> n <= i.max
  }

  /** Every node in use is exact. */
  ghost predicate AllExact(t: Tree) {
    && Exact(t)
    && (t.Fork? && t.info.mark == 0 ==>
          && t.info.leftMax == t.left.info.max && t.info.rightMax == t.right.info.max
          && t.info.leftRight == t.left.info.rightBorder && t.info.rightLeft == t.right.info.leftBorder
          && AllExact(t.left) && AllExact(t.right))
  }

  lemma FullRun(t: Tree)
    requires Exact(t) && Size(t.info) >= 1
    ensures IsEmpty(t.info) <==> FreeRun(t, t.info.l, Size(t.info))
    ensures IsEmpty(t.info) <==> t.info.leftBorder == Size(t.info)
    ensures IsEmpty(t.info) <==> t.info.rightBorder == Size(t.info)
  {
    var i := t.info;
    if FreeRun(t, i.l, Size(i)) {
      assert HasRun(t, Size(i));
    }
    if IsEmpty(i) {
      var s :| i.l <= s <= i.r - i.max + 1 && FreeRun(t, s, i.max);
      assert FreeRun(t, i.l, Size(i));
    }
  }

  lemma PushUpExactLeft(t: Tree, l: int, r: int)
    requires t.Fork? && t.info.mark == 0 && Shaped(t, l, r) && Exact(t.left) && Exact(t.right)
    requires t.info == PushUp(t.info, t.left.info, t.right.info)
    ensures var i := t.info;
            && 0 <= i.leftBorder <= Size(i) && FreeRun(t, l, i.leftBorder)
            && (i.leftBorder < Size(i) ==> Taken(t, l + i.leftBorder))
  {
    hide FreeRun, Taken, HasRun;
    var a, b, mid := t.left.info, t.right.info, t.info.mid;
    SonSizes(t, l, r);
    FullRun(t.left);
    RunsLift(t, l, a.leftBorder);
    RunsLift(t, mid + 1, b.leftBorder);
    if IsEmpty(a) {
      RunsJoin(t, l, Size(a), b.leftBorder);
    }
    TakenFork(t, l + t.info.leftBorder);
  }

  lemma PushUpExactRight(t: Tree, l: int, r: int)
    requires t.Fork? && t.info.mark == 0 && Shaped(t, l, r) && Exact(t.left) && Exact(t.right)
    requires t.info == PushUp(t.info, t.left.info, t.right.info)
    ensures var i := t.info;
            && 0 <= i.rightBorder <= Size(i) && FreeRun(t, r - i.rightBorder + 1, i.rightBorder)
            && (i.rightBorder < Size(i) ==> Taken(t, r - i.rightBorder))
  {
    hide FreeRun, Taken, HasRun;
    var a, b, mid := t.left.info, t.right.info, t.info.mid;
    SonSizes(t, l, r);
    FullRun(t.right);
    RunsLift(t, mid - a.rightBorder + 1, a.rightBorder);
    RunsLift(t, r - b.rightBorder + 1, b.rightBorder);
    if IsEmpty(b) {
      RunsJoin(t, mid - a.rightBorder + 1, a.rightBorder, Size(b));
    }
    TakenFork(t, r - t.info.rightBorder);
  }

  /** No run of the node is longer than the longest of its sons and the one across the middle. */
  lemma PushUpLongest(t: Tree, l: int, r: int, n: int)
    requires t.Fork? && t.info.mark == 0 && Shaped(t, l, r) && Exact(t.left) && Exact(t.right) && HasRun(t, n)
    ensures n <= Max(t.left.info.max, Max(t.right.info.max, t.left.info.rightBorder + t.right.info.leftBorder))
  {
    hide FreeRun, Taken;
    var mid := t.info.mid;
    SonSizes(t, l, r);
    var s :| l <= s <= r - n + 1 && FreeRun(t, s, n);
    if s + n <= mid + 1 {
      RunsOfSon(t, s, n);
      assert HasRun(t.left, n);
    } else if mid < s {
      RunsOfSon(t, s, n);
      assert HasRun(t.right, n);
    } else {
      RunAcross(t, l, r, s, n);
    }
  }

  /** A run across the middle ends in both borders. */
  lemma RunAcross(t: Tree, l: int, r: int, s: int, n: int)
    requires t.Fork? && t.info.mark == 0 && Shaped(t, l, r) && Exact(t.left) && Exact(t.right)
    requires l <= s <= t.info.mid < s + n - 1 <= r && FreeRun(t, s, n)
    ensures t.info.mid - s + 1 <= t.left.info.rightBorder && s + n - 1 - t.info.mid <= t.right.info.leftBorder
  {
    hide HasRun, Taken;
    var a, b, mid := t.left.info, t.right.info, t.info.mid;
    SonSizes(t, l, r);
    TakenFork(t, mid - a.rightBorder);
    TakenFork(t, mid + 1 + b.leftBorder);
  }

  /** Caches recomputed from exact sons are exact. */
  lemma PushUpExact(t: Tree, l: int, r: int)
    requires t.Fork? && t.info.mark == 0 && Shaped(t, l, r) && Exact(t.left) && Exact(t.right)
    requires t.info == PushUp(t.info, t.left.info, t.right.info)
    ensures Exact(t)
  {
    hide FreeRun, Taken, HasRun;
    PushUpExactLeft(t, l, r);
    PushUpExactRight(t, l, r);
    SonsHaveRuns(t, l, r);
    PushUpRun(t);
    forall n | HasRun(t, n)
      ensures n <= t.info.max
    {
      PushUpLongest(t, l, r, n);
    }
  }

  lemma SonsHaveRuns(t: Tree, l: int, r: int)
    requires t.Fork? && t.info.mark == 0 && Shaped(t, l, r) && Exact(t.left) && Exact(t.right)
    requires t.info == PushUp(t.info, t.left.info, t.right.info)
    ensures HasRun(t.left, t.left.info.max) && HasRun(t.right, t.right.info.max)
    ensures FreeRun(t, t.info.mid - t.info.leftRight + 1, t.info.leftRight)
    ensures FreeRun(t, t.info.mid + 1, t.info.rightLeft)
    ensures t.info.leftRight <= t.info.mid - l + 1 && t.info.rightLeft <= r - t.info.mid
  {
    RunsLift(t, t.info.mid - t.info.leftRight + 1, t.info.leftRight);
    RunsLift(t, t.info.mid + 1, t.info.rightLeft);
  }

  lemma MarkExact(t: Tree, l: int, r: int, mark: int)
    requires Shaped(t, l, r) && mark in {-1, 1}
    ensures AllExact(MarkRoot(t, mark))
  {
    var m := MarkRoot(t, mark);
    assert FreeRun(m, l, m.info.max) && HasRun(m, m.info.max);
    if mark == 1 {
      forall n | HasRun(m, n)
        ensures n <= 0
      {
        var s :| l <= s <= r - n + 1 && FreeRun(m, s, n);
        assert Taken(m, s);
      }
    }
  }

  lemma PushDownExact(t: Tree, l: int, r: int)
    requires AllExact(t) && Good(t, l, r) && t.Fork?
    ensures AllExact(PushDown(t).left) && AllExact(PushDown(t).right)
  {
    hide Exact, Sound, MarkRoot;
    if t.info.mark == 0 {
      MarkNothing(t.left);
      MarkNothing(t.right);
    } else {
      MarkExact(t.left, l, t.info.mid, t.info.mark);
      MarkExact(t.right, t.info.mid + 1, r, t.info.mark);
    }
  }

  lemma MarkNothing(t: Tree)
    ensures MarkRoot(t, 0) == t
  {
  }

  lemma RejoinedExact(d: Tree, l: int, r: int, a: Tree, b: Tree)
    requires d.Fork? && d.info.mark == 0 && d.info.l == l < r == d.info.r && d.info.mid == (l + r) / 2
    requires Shaped(a, l, d.info.mid) && Shaped(b, d.info.mid + 1, r) && AllExact(a) && AllExact(b)
    ensures AllExact(Rejoined(d, a, b))
  {
    hide Exact;
    PushUpExact(Rejoined(d, a, b), l, r);
  }

  /** An update of a tree with exact caches leaves them exact. */
  lemma {:induction false} UpdateKeepsExact(t: Tree, l: int, r: int, from: int, to: int, mark: int)
    requires Good(t, l, r) && AllExact(t) && mark in {-1, 1}
    ensures AllExact(Update(t, from, to, mark))
    decreases Height(t)
  {
    hide AllExact, Sound, Bounded, Update, Rejoined, MarkRoot;
    var lo, hi := Max(from, l), Min(to, r);
    UpdateCases(t, l, r, from, to, mark);
    if lo <= hi {
      if lo == l && hi == r {
        MarkExact(t, l, r, mark);
      } else {
        PushDownGood(t, l, r);
        PushDownExact(t, l, r);
        var d := PushDown(t);
        UpdateKeepsExact(d.left, l, d.info.mid, lo, hi, mark);
        UpdateKeepsExact(d.right, d.info.mid + 1, r, lo, hi, mark);
        UpdateFills(d.left, l, d.info.mid, lo, hi, mark);
        UpdateFills(d.right, d.info.mid + 1, r, lo, hi, mark);
        RejoinedExact(d, l, r, Update(d.left, lo, hi, mark), Update(d.right, lo, hi, mark));
      }
    }
  }

  /** On a tree that is honest and exact the search misses nothing: it succeeds exactly if a run is long enough. */
  lemma SearchMissesNothing(t: Tree, l: int, r: int, size: int)
    requires Good(t, l, r) && Honest(t) && AllExact(t) && t.info.mark == 0 && l >= 0 && size >= 1
    ensures FindSpace(t, size) != -1 <==> HasRun(t, size)
  {
    hide FreeRun, Sound, FindSpace;
    SearchIff(t, l, r, size);
    FindIsFree(t, l, r, size);
    if t.Fork? {
      if HasRun(t, size) {
        PushUpLongest(t, l, r, size);
      }
    }
  }

  /** The right half is fresh, and the root goes by what that says of itself, which is less than it has. */
  ghost predicate Blinkered(t: Tree, l: int, r: int) {
    && Shaped(t, l, r) && Bounded(t) && t.Fork? && t.info.mark == 0
    && t.right == Init(t.info.mid + 1, r) && t.info.rightLeft < r - t.info.mid
  }

  /** What a fresh node says: that all is free, but of its borders only the sizes of its halves. */
  lemma FreshCaches(l: int, r: int)
    requires l < r
    ensures var i := Init(l, r).info;
            var left, right := (l + r) / 2 - l + 1, r - (l + r) / 2;
            && i.max == r - l + 1 && i.leftMax == i.leftRight == i.leftBorder == left
            && i.rightMax == i.rightLeft == i.rightBorder == right
  {
    hide Taken;
    InitGood(l, (l + r) / 2);
    InitGood((l + r) / 2 + 1, r);
  }

  lemma FreshSaysLess(l: int, r: int)
    requires l < r
    ensures Init(l, r).info.leftBorder < r - l + 1
  {
    hide Taken;
    InitGood(l, (l + r) / 2);
  }

  /** Any update of the left half, whatever it does, makes the root forget how much room there is on the right. */
  lemma LeftUpdateBlinkers(t: Tree, l: int, r: int, from: int, to: int, mark: int)
    requires l + 3 <= r && l <= from <= to <= (l + r) / 2 && mark in {-1, 1}
    requires Good(t, l, r) && t.info.mark == 0 && t.right == Init((l + r) / 2 + 1, r)
    ensures Blinkered(Update(t, from, to, mark), l, r)
  {
    hide Sound, Init, Taken;
    var mid := (l + r) / 2;
    FreshSaysLess(mid + 1, r);
    UpdateCases(t, l, r, from, to, mark);
    UpdateCases(t.right, mid + 1, r, from, to, mark);
    MarkNothing(t.left);
    MarkNothing(t.right);
    UpdateFills(t, l, r, from, to, mark);
  }

  /** Such a node, whatever its mark, does not find the room for its whole range. */
  lemma BlinkeredMisses(t: Tree, l: int, r: int, mark: int)
    requires Blinkered(t, l, r)
    ensures FindSpace(MarkRoot(t, mark), r - l + 1) == -1
  {
    hide Init, FreeRun;
    SonSizes(t, l, r);
  }

  lemma SonSizes(t: Tree, l: int, r: int)
    requires Shaped(t, l, r) && t.Fork?
    ensures Size(t.left.info) == t.info.mid - l + 1 >= 1 && Size(t.right.info) == r - t.info.mid >= 1
  {
    assert Shaped(t.left, l, t.info.mid) && Shaped(t.right, t.info.mid + 1, r);
  }

  /**
   The search does miss room: on a heap of four units or more, once a block of the left half has been taken and
   released, all units are free again, but a request for all of them fails. On a fresh heap it succeeds.
   */
  lemma WholeHeapLost(n: nat, count: nat)
    requires 4 <= n <= HeapRuns.MAX_UNITS && 1 <= count <= (n - 1) / 2 + 1
    ensures var h := HeapRuns.Release(HeapRuns.Alloc(HeapRuns.Fresh(n), count).0, 0);
            && h.live == map[] && FreeRun(h.tree, 0, n)
            && HeapRuns.Alloc(h, n).1 == -1 && HeapRuns.Alloc(HeapRuns.Fresh(n), n).1 == 0
  {
    hide Good, Update, FindSpace, Init, HeapRuns.Wrap, Blinkered, Taken;
    var f := HeapRuns.Fresh(n);
    InitGood(0, n - 1);
    InitFind(0, n - 1, count);
    InitFind(0, n - 1, n);
    FreshRight(n);
    HeapRuns.SmallStays(count - 1);
    var t1 := Update(f.tree, 0, count - 1, 1);
    UpdateFills(f.tree, 0, n - 1, 0, count - 1, 1);
    LeftUpdateBlinkers(f.tree, 0, n - 1, 0, count - 1, 1);
    BlinkeredParts(t1, 0, n - 1);
    var t2 := Update(t1, 0, count - 1, -1);
    UpdateFills(t1, 0, n - 1, 0, count - 1, -1);
    LeftUpdateBlinkers(t1, 0, n - 1, 0, count - 1, -1);
    BlinkeredMisses(t2, 0, n - 1, 0);
    MarkNothing(t2);
    var h1 := HeapRuns.Alloc(f, count).0;
    assert h1.live - {0} == map[];
  }

  /**
   Without a release it misses room too: after one block of less than the left half, the rest of the heap is free,
   but a request for the rest fails.
   */
  lemma RestLost(n: nat, count: nat)
    requires 4 <= n <= HeapRuns.MAX_UNITS && 1 <= count <= (n - 1) / 2
    ensures var h := HeapRuns.Alloc(HeapRuns.Fresh(n), count).0;
            FreeRun(h.tree, count, n - count) && HeapRuns.Alloc(h, n - count).1 == -1
  {
    hide Good, Update, FindSpace, Init, HeapRuns.Wrap, Taken;
    var f := HeapRuns.Fresh(n);
    InitGood(0, n - 1);
    InitFind(0, n - 1, count);
    FreshRight(n);
    HeapRuns.SmallStays(count - 1);
    UpdateFills(f.tree, 0, n - 1, 0, count - 1, 1);
    LeftUpdateBlinkers(f.tree, 0, n - 1, 0, count - 1, 1);
    RestMissed(Update(f.tree, 0, count - 1, 1), n - 1, count);
  }

  lemma RestMissed(t: Tree, r: int, count: nat)
    requires Good(t, 0, r) && Blinkered(t, 0, r) && 1 <= count <= r / 2
    requires forall u :: 0 <= u <= r ==> (Taken(t, u) <==> u < count)
    ensures FindSpace(t, r + 1 - count) == -1
  {
    hide Init, Taken;
    var mid := r / 2;
    SonSizes(t, 0, r);
    assert t.info.leftRight <= mid + 1 - count by {
      assert Taken(t, count - 1);
    }
    assert t.info.leftMax <= mid + 1 - count by {
      var m := t.left.info.max;
      assert Shaped(t.left, 0, mid) && Sound(t.left);
      var s :| t.left.info.l <= s <= t.left.info.r - m + 1 && FreeRun(t.left, s, m);
      RunsLift(t, s, m);
      if m >= 1 {
        assert !Taken(t, s);
      }
    }
  }

  lemma FreshRight(n: nat)
    requires n >= 2
    ensures var t := Init(0, n - 1); t.Fork? && t.right == Init((n - 1) / 2 + 1, n - 1)
  {
    InitFork(0, n - 1);
  }

  lemma BlinkeredParts(t: Tree, l: int, r: int)
    requires Blinkered(t, l, r)
    ensures t.Fork? && t.info.mark == 0 && t.right == Init((l + r) / 2 + 1, r)
  {
  }

  /** An update of a part of the range, where no mark is in the way, updates the sons and recomputes the caches. */
  lemma PartUpdate(t: Tree, l: int, r: int, from: int, to: int, mark: int)
    requires Shaped(t, l, r) && t.Fork? && t.info.mark == 0 && l <= from <= to <= r && !(from == l && to == r)
    ensures Update(t, from, to, mark) ==
            Rejoined(t, Update(t.left, from, to, mark), Update(t.right, from, to, mark))
  {
    hide Rejoined, Update;
    UpdateCases(t, l, r, from, to, mark);
    MarkNothing(t.left);
    MarkNothing(t.right);
  }

  /** The left half after its own left half was taken and released: free as a whole, and known to be from the right. */
  lemma QuarterReleased(r: int) returns (t: Tree)
    requires r >= 3
    ensures var q := r / 2; t == Update(Update(Init(0, r), 0, q, 1), 0, q, -1)
    ensures Blinkered(t, 0, r) && Good(t, 0, r) && t.info.rightBorder == r + 1
  {
    hide Sound, Init, Update, Taken;
    var q := r / 2;
    var f := Init(0, r);
    InitGood(0, r);
    FreshRight(r + 1);
    UpdateFills(f, 0, r, 0, q, 1);
    LeftUpdateBlinkers(f, 0, r, 0, q, 1);
    var t1 := Update(f, 0, q, 1);
    UpdateFills(t1, 0, r, 0, q, -1);
    LeftUpdateBlinkers(t1, 0, r, 0, q, -1);
    t := Update(t1, 0, q, -1);
    PartUpdate(t1, 0, r, 0, q, -1);
    UpdateCases(t1.left, 0, q, 0, q, -1);
    InitGood(q + 1, r);
  }

  /** The same as the left half of a heap: across the middle there is room for one unit more than the half. */
  lemma HalfBlinkered(t: Tree, r: int)
    requires r >= 7 && Good(t, 0, r) && t.info.mark == 0 && t.Fork? && t.right == Init(r / 2 + 1, r)
    requires Blinkered(t.left, 0, r / 2) && t.left.info.rightBorder == r / 2 + 1
    requires t.info == PushUp(t.info, t.left.info, t.right.info)
    ensures FindSpace(t, r / 2 + 2) == 0
    ensures var t' := Update(Update(t, 0, r / 2 + 1, 1), 0, r / 2 + 1, -1); FindSpace(t', r / 2 + 1) == -1
  {
    hide Good, Blinkered, Init, Update, FindSpace, PushUp;
    RoomAcross(t, r);
    StaleHalf(t, r);
  }

  lemma RoomAcross(t: Tree, r: int)
    requires r >= 7 && Good(t, 0, r) && t.Fork? && t.right == Init(r / 2 + 1, r)
    requires Blinkered(t.left, 0, r / 2) && t.left.info.rightBorder == r / 2 + 1
    requires t.info == PushUp(t.info, t.left.info, t.right.info)
    ensures FindSpace(t, r / 2 + 2) == 0
  {
    hide Sound, Init, Taken;
    FreshCaches(r / 2 + 1, r);
    SonSizes(t, 0, r);
  }

  /** The left half is taken and released as a whole: its mark says that it is free, its split caches are old. */
  lemma StaleHalf(t: Tree, r: int)
    requires r >= 7 && Good(t, 0, r) && t.info.mark == 0 && t.Fork? && Blinkered(t.left, 0, r / 2)
    ensures var t' := Update(Update(t, 0, r / 2 + 1, 1), 0, r / 2 + 1, -1); FindSpace(t', r / 2 + 1) == -1
  {
    hide Sound, Init, Update, Taken;
    var mid := r / 2;
    PartUpdate(t, 0, r, 0, mid + 1, 1);
    UpdateCases(t.left, 0, mid, 0, mid + 1, 1);
    var t1 := Update(t, 0, mid + 1, 1);
    UpdateFills(t, 0, r, 0, mid + 1, 1);
    PartUpdate(t1, 0, r, 0, mid + 1, -1);
    UpdateCases(t1.left, 0, mid, 0, mid + 1, -1);
    BlinkeredMisses(t.left, 0, mid, -1);
    TwiceMarked(t.left);
  }

  lemma TwiceMarked(t: Tree)
    ensures MarkRoot(MarkRoot(t, 1), -1) == MarkRoot(t, -1)
  {
  }

  /** An update of the left half alone. */
  lemma LeftUpdate(t: Tree, r: int, from: int, to: int, mark: int)
    requires Good(t, 0, r) && t.Fork? && t.info.mark == 0 && 0 <= from <= to <= r / 2 && mark in {-1, 1}
    ensures Update(t, from, to, mark) == Rejoined(t, Update(t.left, from, to, mark), t.right)
  {
    hide Sound, Update, Rejoined;
    PartUpdate(t, 0, r, from, to, mark);
    UpdateCases(t.right, r / 2 + 1, r, from, to, mark);
  }

  lemma QuarterOfHeap(r: int) returns (t: Tree)
    requires r >= 7
    ensures var q := r / 4;
            t == Update(Update(Init(0, r), 0, q, 1), 0, q, -1) && FindSpace(Init(0, r), q + 1) == 0
    ensures Good(t, 0, r) && t.Fork? && t.info.mark == 0 && t.right == Init(r / 2 + 1, r)
    ensures Blinkered(t.left, 0, r / 2) && t.left.info.rightBorder == r / 2 + 1
    ensures t.info == PushUp(t.info, t.left.info, t.right.info)
  {
    hide Sound, Bounded, Init, Update, Taken, Blinkered, FindSpace;
    var q, f := r / 4, Init(0, r);
    InitGood(0, r);
    InitFork(0, r);
    InitFind(0, r, q + 1);
    UpdateFills(f, 0, r, 0, q, 1);
    var t1 := Update(f, 0, q, 1);
    LeftUpdate(f, r, 0, q, 1);
    UpdateFills(t1, 0, r, 0, q, -1);
    LeftUpdate(t1, r, 0, q, -1);
    t := Update(t1, 0, q, -1);
    var half := QuarterReleased(r / 2);
  }

  /**
   The search can even run into a dead end: on a heap of eight units or more, after two blocks have been taken and
   released in turn, all units are free, but a request for the left half of them fails.
   */
  lemma DeadEnd(n: nat)
    requires 8 <= n <= HeapRuns.MAX_UNITS
    ensures var r := n - 1;
            var h1 := HeapRuns.Release(HeapRuns.Alloc(HeapRuns.Fresh(n), r / 4 + 1).0, 0);
            var h2 := HeapRuns.Release(HeapRuns.Alloc(h1, r / 2 + 2).0, 0);
            h2.live == map[] && FreeRun(h2.tree, 0, n) && HeapRuns.Alloc(h2, r / 2 + 1).1 == -1
  {
    hide Sound, Bounded, Init, Update, Taken, Blinkered, FindSpace, PushUp, HeapRuns.Wrap;
    var r, f := n - 1, HeapRuns.Fresh(n);
    var t := QuarterOfHeap(r);
    HeapRuns.SmallStays(r / 4);
    HeapRuns.SmallStays(r / 2 + 1);
    HalfBlinkered(t, r);
    UpdateFills(t, 0, r, 0, r / 2 + 1, 1);
    var t1 := Update(t, 0, r / 2 + 1, 1);
    UpdateFills(t1, 0, r, 0, r / 2 + 1, -1);
    AllFree(r, t, t1);
    TakeAndRelease(f, r / 4 + 1);
    var h1 := HeapRuns.Release(HeapRuns.Alloc(f, r / 4 + 1).0, 0);
    assert h1.tree == t;
    TakeAndRelease(h1, r / 2 + 2);
  }

  /** A block taken at unit 0 and released again. */
  lemma TakeAndRelease(h: HeapRuns.Heap, count: nat)
    requires count >= 1 && |h.length| >= 1 && FindSpace(h.tree, count) == 0 && count <= HeapRuns.MAX_UNITS
    requires h.live == map[]
    ensures var h' := HeapRuns.Release(HeapRuns.Alloc(h, count).0, 0);
            && h'.tree == Update(Update(h.tree, 0, count - 1, 1), 0, count - 1, -1)
            && h'.live == map[] && |h'.length| == |h.length|
  {
    hide Update, FindSpace, HeapRuns.Wrap;
    HeapRuns.SmallStays(count - 1);
    assert HeapRuns.Alloc(h, count).0.live - {0} == map[];
  }

  lemma AllFree(r: int, t: Tree, t1: Tree)
    requires r >= 7 && t == Update(Update(Init(0, r), 0, r / 4, 1), 0, r / 4, -1) && Good(t, 0, r)
    requires t1 == Update(t, 0, r / 2 + 1, 1) && Good(t1, 0, r)
    ensures FreeRun(Update(t1, 0, r / 2 + 1, -1), 0, r + 1)
  {
    hide Good, Init, Update, Taken;
    InitGood(0, r);
    UpdateFills(Init(0, r), 0, r, 0, r / 4, 1);
    UpdateFills(Update(Init(0, r), 0, r / 4, 1), 0, r, 0, r / 4, -1);
    UpdateFills(t, 0, r, 0, r / 2 + 1, 1);
    UpdateFills(t1, 0, r, 0, r / 2 + 1, -1);
  }
}

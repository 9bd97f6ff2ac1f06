/**
 The heap as the kernel stores it: the tree flattened into an array of nodes, the children of
 node n at 2n and 2n+1, updated in place by recursive calls.
 */
module HeapArray {
  import opened Arithmetic
  import opened HeapTree
  import opened HeapRuns

  /** Index `k` lies in the subtree stored at index `n`. */
  ghost predicate Below(n: int, k: int)
    decreases if k > 0 then k else 0
  {
    1 <= n <= k && (k == n || Below(n, k / 2))
  }

  lemma {:induction false} BelowChild(n: int, c: int, k: int)
    requires n >= 1 && (c == 2 * n || c == 2 * n + 1) && Below(c, k)
    ensures Below(n, k) && k != n
    decreases k
  {
    if k == c {
      assert Below(n, k / 2);
    } else {
      BelowChild(n, c, k / 2);
    }
  }

  lemma {:induction false} SiblingsApart(n: int, k: int)
    requires n >= 1 && Below(2 * n, k)
    ensures !Below(2 * n + 1, k)
    decreases k
  {
    if k != 2 * n && k != 2 * n + 1 {
      SiblingsApart(n, k / 2);
    }
  }

  /** The subtree of the array at index `n` is `t`. */
  ghost predicate Holds(s: seq<Info>, n: int, t: Tree)
    decreases t
  {
    && 1 <= n < |s| && s[n] == t.info
    && (t.Fork? ==> Holds(s, 2 * n, t.left) && Holds(s, 2 * n + 1, t.right))
  }

  ghost predicate SameBelow(s: seq<Info>, s': seq<Info>, n: int) {
    |s| == |s'| && forall k :: 0 <= k < |s| && Below(n, k) ==> s[k] == s'[k]
  }

  ghost predicate SameOutside(s: seq<Info>, s': seq<Info>, n: int) {
    |s| == |s'| && forall k :: 0 <= k < |s| && !Below(n, k) ==> s[k] == s'[k]
  }

  lemma {:induction false} HoldsFrame(s: seq<Info>, s': seq<Info>, n: int, t: Tree)
    requires Holds(s, n, t) && SameBelow(s, s', n)
    ensures Holds(s', n, t)
    decreases t
  {
    assert Below(n, n);
    if t.Fork? {
      SameBelowChildren(s, s', n);
      HoldsFrame(s, s', 2 * n, t.left);
      HoldsFrame(s, s', 2 * n + 1, t.right);
    }
  }

  lemma SameBelowChildren(s: seq<Info>, s': seq<Info>, n: int)
    requires n >= 1 && SameBelow(s, s', n)
    ensures SameBelow(s, s', 2 * n) && SameBelow(s, s', 2 * n + 1)
  {
    forall k, c | 0 <= k < |s| && (c == 2 * n || c == 2 * n + 1) && Below(c, k)
      ensures s[k] == s'[k]
    {
      BelowChild(n, c, k);
    }
  }

  /** A change inside one child's subtree leaves the sibling's alone and stays below the parent. */
  lemma ChildChange(s: seq<Info>, s': seq<Info>, n: int, c: int)
    requires n >= 1 && (c == 2 * n || c == 2 * n + 1) && SameOutside(s, s', c)
    ensures SameBelow(s, s', 4 * n + 1 - c) && SameOutside(s, s', n)
    ensures n < |s| ==> s[n] == s'[n]
  {
    var other := 4 * n + 1 - c;
    forall k | 0 <= k < |s| && Below(other, k)
      ensures s[k] == s'[k]
    {
      if Below(c, k) {
        SiblingsApart(n, k);
      }
    }
    forall k | 0 <= k < |s| && !Below(n, k)
      ensures s[k] == s'[k]
    {
      if Below(c, k) {
        BelowChild(n, c, k);
      }
    }
    assert !Below(c, n);
  }

  /** Writing only the node at `n` replaces the root of the tree held there. */
  lemma RootChange(s: seq<Info>, s': seq<Info>, n: int, t: Tree, i: Info)
    requires Holds(s, n, t) && s' == s[n := i]
    ensures Holds(s', n, t.(info := i)) && SameOutside(s, s', n)
  {
    assert Below(n, n);
    if t.Fork? {
      forall k, c | 0 <= k < |s| && (c == 2 * n || c == 2 * n + 1) && Below(c, k)
        ensures s[k] == s'[k]
      {
        BelowChild(n, c, k);
      }
      HoldsFrame(s, s', 2 * n, t.left);
      HoldsFrame(s, s', 2 * n + 1, t.right);
    }
  }

  lemma SameOutsideTrans(a: seq<Info>, b: seq<Info>, c: seq<Info>, n: int)
    requires SameOutside(a, b, n) && SameOutside(b, c, n)
    ensures SameOutside(a, c, n)
  {
  }


  class KernelHeap {
    const base: nat
    const nodes: array<Info>
    const allocLength: array<int>
    var totalAlloc: int
    ghost var heap: Heap

    /** The arrays hold the abstract heap; no claim on the blocks. */
    ghost predicate Stored()
      reads this, nodes, allocLength
    {
      && allocLength.Length >= 2 && allocLength[..] == heap.length
      && Good(heap.tree, 0, allocLength.Length - 1)
      && Holds(nodes[..], 1, heap.tree)
    }

    method PushUp(node: int, ghost t: Tree)
      requires t.Fork? && Holds(nodes[..], node, t)
      modifies nodes
      ensures Holds(nodes[..], node, t.(info := HeapTree.PushUp(t.info, t.left.info, t.right.info)))
      ensures SameOutside(old(nodes[..]), nodes[..], node)
    {
      ghost var s := nodes[..];
      var cnt, a, b := nodes[node], nodes[2 * node], nodes[2 * node + 1];
      var leftBorder, rightBorder;
      if !IsEmpty(a) {
        leftBorder := a.leftBorder;
      } else {
        leftBorder := Size(a) + b.leftBorder;
      }
      if !IsEmpty(b) {
        rightBorder := b.rightBorder;
      } else {
        rightBorder := a.rightBorder + Size(b);
      }
      nodes[node] := cnt.(leftBorder := leftBorder, leftRight := a.rightBorder,
                          rightLeft := b.leftBorder, rightBorder := rightBorder,
                          leftMax := a.max, rightMax := b.max,
                          max := Max(a.max, Max(b.max, a.rightBorder + b.leftBorder)));
      RootChange(s, nodes[..], node, t, nodes[node]);
    }

    /** The node at index `c` takes over a mark. */
    method TakeMark(c: int, mark: int, ghost t: Tree)
      requires Holds(nodes[..], c, t)
      modifies nodes
      ensures Holds(nodes[..], c, MarkRoot(t, mark))
      ensures SameOutside(old(nodes[..]), nodes[..], c)
    {
      ghost var s := nodes[..];
      var cnt := nodes[c];
      if mark == 1 {
        nodes[c] := cnt.(mark := 1, max := 0, leftBorder := 0, rightBorder := 0);
      } else if mark == -1 {
        var size := cnt.r - cnt.l + 1;
        nodes[c] := cnt.(mark := -1, max := size, leftBorder := size, rightBorder := size);
      }
      assert nodes[..] == s[c := nodes[c]];
      RootChange(s, nodes[..], c, t, nodes[c]);
    }

    method PushDown(node: int, ghost t: Tree)
      requires t.Fork? && Holds(nodes[..], node, t)
      modifies nodes
      ensures Holds(nodes[..], node, HeapTree.PushDown(t))
      ensures SameOutside(old(nodes[..]), nodes[..], node)
    {
      hide HeapTree.Marked, MarkRoot;
      ghost var s0 := nodes[..];
      var mark := nodes[node].mark;
      TakeMark(2 * node, mark, t.left);
      ghost var s1 := nodes[..];
      ChildChange(s0, s1, node, 2 * node);
      HoldsFrame(s0, s1, 2 * node + 1, t.right);
      TakeMark(2 * node + 1, mark, t.right);
      ghost var s2 := nodes[..];
      ChildChange(s1, s2, node, 2 * node + 1);
      HoldsFrame(s1, s2, 2 * node, MarkRoot(t.left, mark));
      ghost var t' := Fork(t.info, MarkRoot(t.left, mark), MarkRoot(t.right, mark));
      nodes[node] := nodes[node].(mark := 0);
      assert nodes[..] == s2[node := t.info.(mark := 0)];
      RootChange(s2, nodes[..], node, t', t.info.(mark := 0));
      SameOutsideTrans(s0, s1, s2, node);
      SameOutsideTrans(s0, s2, nodes[..], node);
    }

    /** The in-place recursive update holds the updated tree and touches nothing outside the subtree. */
    method UpdateNode(node: int, from: int, to: int, mark: int, ghost t: Tree)
      requires Shaped(t, t.info.l, t.info.r) && Holds(nodes[..], node, t)
      modifies nodes
      ensures Holds(nodes[..], node, Update(t, from, to, mark))
      ensures SameOutside(old(nodes[..]), nodes[..], node)
      decreases Height(t)
    {
      hide Update, HeapTree.PushDown, MarkRoot, Rejoined, HeapTree.PushUp;
      var cnt := nodes[node];
      UpdateCases(t, cnt.l, cnt.r, from, to, mark);
      var l, r := Max(from, cnt.l), Min(to, cnt.r);
      if r < l {
        return;
      }
      if l == cnt.l && r == cnt.r {
        TakeMark(node, mark, t);
      } else {
        UpdateHalves(node, l, r, mark, t);
      }
    }

    method UpdateHalves(node: int, l: int, r: int, mark: int, ghost t: Tree)
      requires t.Fork? && Shaped(t, t.info.l, t.info.r) && Holds(nodes[..], node, t)
      modifies nodes
      ensures var d := HeapTree.PushDown(t);
              Holds(nodes[..], node, Rejoined(d, Update(d.left, l, r, mark), Update(d.right, l, r, mark)))
      ensures SameOutside(old(nodes[..]), nodes[..], node)
      decreases Height(t), 0
    {
      hide Update, MarkRoot, HeapTree.PushUp;
      ghost var s0 := nodes[..];
      PushDown(node, t);
      ghost var s1 := nodes[..];
      ghost var d := HeapTree.PushDown(t);
      PushDownShape(t);
      UpdateNode(2 * node, l, r, mark, d.left);
      ghost var s2 := nodes[..];
      ChildChange(s1, s2, node, 2 * node);
      HoldsFrame(s1, s2, 2 * node + 1, d.right);
      UpdateNode(2 * node + 1, l, r, mark, d.right);
      ghost var s3 := nodes[..];
      ChildChange(s2, s3, node, 2 * node + 1);
      ghost var a, b := Update(d.left, l, r, mark), Update(d.right, l, r, mark);
      HoldsFrame(s2, s3, 2 * node, a);
      PushUp(node, Fork(d.info, a, b));
      SameOutsideTrans(s0, s1, s2, node);
      SameOutsideTrans(s0, s2, s3, node);
      SameOutsideTrans(s0, s3, nodes[..], node);
    }

    method FindSpaceAt(node: int, size: int, ghost t: Tree) returns (s: int)
      requires Shaped(t, t.info.l, t.info.r) && Holds(nodes[..], node, t)
      ensures s == FindSpace(t, size)
      decreases t
    {
      var cnt := nodes[node];
      if cnt.l == cnt.r {
        s := if cnt.max >= size then cnt.l else -1;
      } else if cnt.leftMax >= size {
        s := FindSpaceAt(2 * node, size, t.left);
      } else if cnt.rightMax >= size {
        s := FindSpaceAt(2 * node + 1, size, t.right);
      } else if cnt.leftRight + cnt.rightLeft >= size {
        s := cnt.mid - cnt.leftRight + 1;
      } else {
        s := -1;
      }
    }

    /** Four nodes per unit are enough for the whole recursion. */
    method InitPages(node: int, l: int, r: int)
      requires 1 <= node < nodes.Length && 0 <= l <= r && nodes.Length == 4 * allocLength.Length
      requires Fits(node, r - l, allocLength.Length)
      modifies nodes
      ensures Holds(nodes[..], node, Init(l, r))
      ensures SameOutside(old(nodes[..]), nodes[..], node)
      decreases r - l
    {
      hide Fits, Init;
      ghost var s0 := nodes[..];
      var mid := (l + r) / 2;
      if l != r {
        InitFork(l, r);
        ChildrenFit(node, l, r, allocLength.Length);
        InitPages(2 * node, l, mid);
        ghost var s1 := nodes[..];
        ChildChange(s0, s1, node, 2 * node);
        InitPages(2 * node + 1, mid + 1, r);
        ghost var s2 := nodes[..];
        ChildChange(s1, s2, node, 2 * node + 1);
        HoldsFrame(s1, s2, 2 * node, Init(l, mid));
        var a, b := nodes[2 * node].max, nodes[2 * node + 1].max;
        ghost var t := Fork(nodes[node], Init(l, mid), Init(mid + 1, r));
        nodes[node] := Info(l, r, mid, a, a, b, b, a, b, r - l + 1, 0);
        assert nodes[..] == s2[node := nodes[node]];
        RootChange(s2, nodes[..], node, t, nodes[node]);
        SameOutsideTrans(s0, s1, s2, node);
        SameOutsideTrans(s0, s2, nodes[..], node);
      } else {
        InitLeaf(l);
        nodes[node] := Info(l, r, mid, 1, 1, 1, 1, 1, 1, 1, 0);
        assert nodes[..] == s0[node := nodes[node]];
        assert Below(node, node);
      }
    }

    constructor (base: nat, units: nat)
      requires 2 <= units <= MAX_UNITS
      ensures Stored() && heap == Fresh(units) && Valid(heap)
      ensures this.base == base && totalAlloc == 0 && fresh(nodes) && fresh(allocLength)
    {
      hide Init, Holds, Shaped, Sound, Bounded, Taken;
      this.base := base;
      totalAlloc := 0;
      nodes := new Info[4 * units](_ => Info(0, 0, 0, 0, 0, 0, 0, 0, 0, 0, 0));
      allocLength := new int[units](_ => 0);
      new;
      InitPages(1, 0, units - 1);
      heap := Fresh(units);
      FreshValid(units);
      assert allocLength[..] == heap.length;
    }

    /** The block address, or -1: the step of the specification, which keeps the blocks apart on legal requests. */
    method Malloc(size: ByteCount) returns (p: int)
      requires Stored()
      modifies `totalAlloc, `heap, nodes, allocLength
      ensures Stored() && totalAlloc == (old(totalAlloc) + Wrap(Count(size) * UNIT)) % SIZE_LIMIT
      ensures var (h, s) := Alloc(old(heap), Count(size));
              heap == h && p == if s == -1 then -1 else base + s * UNIT
      ensures old(Valid(heap) && !WholeBlock(heap)) && Count(size) > 0 ==> Valid(heap)
    {
      hide Sound, Bounded, Taken, Update, FindSpace, Wrap;
      var count := Wrap((size + UNIT - 1) % SIZE_LIMIT / UNIT);
      totalAlloc := (totalAlloc + Wrap(count * UNIT)) % SIZE_LIMIT;
      if Valid(heap) && !WholeBlock(heap) && count > 0 {
        AllocKeepsValid(heap, count);
      }
      ghost var t := heap.tree;
      AllocInRange(heap, count);
      var start := FindSpaceAt(1, count, t);
      if start == -1 {
        return -1;
      }
      var last := Wrap(start + count - 1);
      UpdateFills(t, 0, allocLength.Length - 1, start, last, 1);
      UpdateNode(1, start, last, 1, t);
      allocLength[start] := count;
      heap := Alloc(heap, count).0;
      assert allocLength[..] == heap.length;
      p := base + start * UNIT;
    }

    /** Releases what is recorded at address `p`; the blocks stay apart if that is a live block. */
    method Release(p: int)
      requires Stored() && p >= base && (p - base) / UNIT < allocLength.Length
      modifies `heap, nodes
      ensures Stored()
      ensures heap == HeapRuns.Release(old(heap), (p - base) / UNIT)
      ensures old(Valid(heap) && (p - base) / UNIT in heap.live) ==> Valid(heap)
    {
      hide Sound, Bounded, Taken, Update, Wrap;
      var start := (p - base) / UNIT;
      if Valid(heap) && start in heap.live {
        ReleaseKeepsValid(heap, start);
      }
      var length := allocLength[start];
      var last := Wrap(start + length - 1);
      UpdateFills(heap.tree, 0, allocLength.Length - 1, start, last, -1);
      UpdateNode(1, start, last, -1, heap.tree);
      heap := HeapRuns.Release(heap, start);
    }
  }

  lemma MarkRootShape(t: Tree, mark: int)
    requires Shaped(t, t.info.l, t.info.r)
    ensures var m := MarkRoot(t, mark); Shaped(m, m.info.l, m.info.r)
  {
  }

  lemma PushDownShape(t: Tree)
    requires t.Fork? && Shaped(t, t.info.l, t.info.r)
    ensures var d := HeapTree.PushDown(t);
            && Shaped(d.left, d.left.info.l, d.left.info.r) && Shaped(d.right, d.right.info.l, d.right.info.r)
            && Height(d.left) < Height(t) && Height(d.right) < Height(t)
  {
    hide MarkRoot, Shaped, Height;
    ForkShape(t);
    MarkRootShape(t.left, t.info.mark);
    MarkRootShape(t.right, t.info.mark);
  }

  lemma ForkShape(t: Tree)
    requires t.Fork? && Shaped(t, t.info.l, t.info.r)
    ensures Shaped(t.left, t.left.info.l, t.left.info.r) && Shaped(t.right, t.right.info.l, t.right.info.r)
    ensures Height(t.left) < Height(t) && Height(t.right) < Height(t)
  {
  }

  /** The index bound behind the array size: a node over `span + 1` units has an index below this. */
  ghost predicate Fits(node: int, span: int, units: int) { (node + 1) * span <= 2 * (units - 1) }

  lemma MulMono(a: int, x: int, y: int)
    requires a >= 0 && x <= y
    ensures a * x <= a * y
  {
  }

  lemma HalfSpan(n: int, a: int, span: int, cap: int)
    requires n >= 1 && 0 <= 2 * a <= span && n * span <= cap
    ensures (2 * n - 1) * a <= cap && (2 * n) * a <= cap
  {
    MulMono(n, 2 * a, span);
    assert (2 * n) * a == n * (2 * a);
    assert (2 * n - 1) * a == (2 * n) * a - a;
  }

  lemma ChildrenFit(node: int, l: int, r: int, units: int)
    requires node >= 1 && 0 <= l < r && Fits(node, r - l, units)
    ensures var mid := (l + r) / 2;
            2 * node + 1 < 4 * units && Fits(2 * node, mid - l, units) && Fits(2 * node + 1, r - mid - 1, units)
  {
    var mid := (l + r) / 2;
    MulMono(node + 1, 1, r - l);
    HalfSpan(node + 1, mid - l, r - l, 2 * (units - 1));
    HalfSpan(node + 1, r - mid - 1, r - l, 2 * (units - 1));
    assert 2 * (node + 1) - 1 == 2 * node + 1 && 2 * (node + 1) == (2 * node + 1) + 1;
  }
}

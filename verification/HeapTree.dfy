/**
 The segment tree behind the kernel heap, as a tree value. Every node caches run lengths of free
 units and may carry a lazy mark for its whole range; below a mark the subtree is stale.
 */
module HeapTree {

  import opened Arithmetic

  /** One tree node: its range `l..r`, the cached run lengths and the mark (1 taken, -1 free, 0 none). */
  datatype Info = Info(
    l: int, r: int, mid: int,
    leftBorder: int, leftRight: int, rightLeft: int, rightBorder: int,
    leftMax: int, rightMax: int, max: int,
    mark: int)

  datatype Tree = Leaf(info: Info) | Fork(info: Info, left: Tree, right: Tree)

  function Size(i: Info): int { i.r - i.l + 1 }

  predicate IsEmpty(i: Info) { i.max == Size(i) }

  // ----- the operations -----

  function Init(l: int, r: int): Tree
    requires l <= r
    decreases r - l
  {
    var mid := (l + r) / 2;
    if l == r then Leaf(Info(l, r, mid, 1, 1, 1, 1, 1, 1, 1, 0))
    else
      var a, b := Init(l, mid), Init(mid + 1, r);
      Fork(Info(l, r, mid, a.info.max, a.info.max, b.info.max, b.info.max, a.info.max, b.info.max, r - l + 1, 0), a, b)
  }

  /** The caches of a node recomputed from its children. */
  function PushUp(i: Info, a: Info, b: Info): Info {
    i.(leftBorder := if !IsEmpty(a) then a.leftBorder else Size(a) + b.leftBorder,
       leftRight := a.rightBorder,
       rightLeft := b.leftBorder,
       rightBorder := if !IsEmpty(b) then b.rightBorder else a.rightBorder + Size(b),
       leftMax := a.max,
       rightMax := b.max,
       max := Max(a.max, Max(b.max, a.rightBorder + b.leftBorder)))
  }

  /** A node that takes over a mark for its whole range. */
  function Marked(i: Info, mark: int): Info {
    if mark == 1 then i.(mark := 1, max := 0, leftBorder := 0, rightBorder := 0)
    else if mark == -1 then i.(mark := -1, max := Size(i), leftBorder := Size(i), rightBorder := Size(i))
    else i
  }

  function Height(t: Tree): nat {
    if t.Leaf? then 0 else 1 + Max(Height(t.left), Height(t.right))
  }

  function MarkRoot(t: Tree, mark: int): (m: Tree)
    ensures Height(m) == Height(t)
  {
    t.(info := Marked(t.info, mark))
  }

  function PushDown(t: Tree): Tree
    requires t.Fork?
  {
    Fork(t.info.(mark := 0), MarkRoot(t.left, t.info.mark), MarkRoot(t.right, t.info.mark))
  }

  /** Sets units `from..to` to taken (1) or free (-1). A leaf in range is always covered in full. */
  function Update(t: Tree, from: int, to: int, mark: int): Tree
    decreases Height(t)
  {
    var l, r := Max(from, t.info.l), Min(to, t.info.r);
    if r < l then t
    else if l == t.info.l && r == t.info.r then MarkRoot(t, mark)
    else if t.Leaf? then t
    else
      var d := PushDown(t);
      var a, b := Update(d.left, l, r, mark), Update(d.right, l, r, mark);
      Fork(PushUp(d.info, a.info, b.info), a, b)
  }

  function FindSpace(t: Tree, size: int): int {
    if t.Leaf? then
      if t.info.max >= size then t.info.l else -1
    else if t.info.leftMax >= size then FindSpace(t.left, size)
    else if t.info.rightMax >= size then FindSpace(t.right, size)
    else if t.info.leftRight + t.info.rightLeft >= size then t.info.mid - t.info.leftRight + 1
    else -1
  }

  // ----- what a tree means -----

  /** Unit `u` is taken. */
  predicate Taken(t: Tree, u: int) {
    if t.info.mark == 1 then true
    else if t.info.mark == -1 || t.Leaf? then false
    else if u <= t.info.mid then Taken(t.left, u)
    else Taken(t.right, u)
  }

  ghost predicate FreeRun(t: Tree, from: int, n: int) {
    forall u :: from <= u < from + n ==> !Taken(t, u)
  }

  /** Some run of `n` free units lies inside the range of `t`. */
  ghost predicate HasRun(t: Tree, n: int) {
    exists s :: t.info.l <= s <= t.info.r - n + 1 && FreeRun(t, s, n)
  }

  /** The ranges halve from `l..r` down to single units. */
  ghost predicate Shaped(t: Tree, l: int, r: int)
    decreases t
  {
    && t.info.l == l <= r == t.info.r && t.info.mid == (l + r) / 2
    && if l == r then t.Leaf? else t.Fork? && Shaped(t.left, l, t.info.mid) && Shaped(t.right, t.info.mid + 1, r)
  }

  /** Bounds that every node keeps, stale or not. */
  ghost predicate Bounded(t: Tree) {
    var i := t.info;
    && i.mark in {-1, 0, 1}
    && 0 <= i.leftBorder <= Size(i) && 0 <= i.rightBorder <= Size(i) && 0 <= i.max <= Size(i)
    && (i.mark == 1 ==> i.leftBorder == i.rightBorder == i.max == 0)
    && (i.mark == -1 ==> i.leftBorder == i.rightBorder == i.max == Size(i))
    && (t.Fork? ==>
          && 0 <= i.leftRight <= Size(t.left.info) && 0 <= i.rightLeft <= Size(t.right.info)
          && 0 <= i.leftMax <= Size(t.left.info) && 0 <= i.rightMax <= Size(t.right.info)
          && Bounded(t.left) && Bounded(t.right))
  }

  /** Cached lengths of a visible node never exceed the free runs they stand for. */
  ghost predicate Sound(t: Tree) {
    var i := t.info;
    && FreeRun(t, i.l, i.leftBorder)
    && FreeRun(t, i.r - i.rightBorder + 1, i.rightBorder)
    && HasRun(t, i.max)
    && (t.Fork? && i.mark == 0 ==>
          && FreeRun(t, i.mid - i.leftRight + 1, i.leftRight)
          && FreeRun(t, i.mid + 1, i.rightLeft)
          && i.leftMax <= t.left.info.max && i.rightMax <= t.right.info.max
          && Sound(t.left) && Sound(t.right))
  }

  ghost predicate Good(t: Tree, l: int, r: int) { Shaped(t, l, r) && Bounded(t) && Sound(t) }

  // ----- updates -----

  lemma {:induction false} MarkRootGood(t: Tree, l: int, r: int, mark: int)
    requires Shaped(t, l, r) && Bounded(t) && mark in {-1, 1}
    ensures Good(MarkRoot(t, mark), l, r)
    ensures forall u :: Taken(MarkRoot(t, mark), u) <==> mark == 1
  {
    var m := MarkRoot(t, mark);
    assert FreeRun(m, l, m.info.max);
  }

  lemma PushDownGood(t: Tree, l: int, r: int)
    requires Good(t, l, r) && t.Fork?
    ensures var d := PushDown(t); d.info.mark == 0 && Good(d.left, l, d.info.mid) && Good(d.right, d.info.mid + 1, r)
    ensures forall u :: Taken(PushDown(t), u) <==> Taken(t, u)
  {
    if t.info.mark != 0 {
      MarkRootGood(t.left, l, t.info.mid, t.info.mark);
      MarkRootGood(t.right, t.info.mid + 1, r, t.info.mark);
    } else {
      assert PushDown(t) == t;
    }
  }

  /** Free runs of the children are free runs of an unmarked node. */
  lemma RunsLift(t: Tree, from: int, n: int)
    requires t.Fork? && t.info.mark == 0
    ensures from + n <= t.info.mid + 1 && FreeRun(t.left, from, n) ==> FreeRun(t, from, n)
    ensures t.info.mid < from && FreeRun(t.right, from, n) ==> FreeRun(t, from, n)
  {
  }

  lemma RunsJoin(t: Tree, from: int, n: int, m: int)
    requires FreeRun(t, from, n) && FreeRun(t, from + n, m)
    ensures FreeRun(t, from, n + m)
  {
  }

  lemma EmptyIsFree(t: Tree)
    requires Sound(t) && IsEmpty(t.info)
    ensures FreeRun(t, t.info.l, Size(t.info))
  {
  }

  lemma PushUpBorders(t: Tree, l: int, r: int)
    requires t.Fork? && t.info.mark == 0 && Shaped(t, l, r)
    requires Bounded(t.left) && Bounded(t.right) && Sound(t.left) && Sound(t.right)
    requires t.info == PushUp(t.info, t.left.info, t.right.info)
    ensures FreeRun(t, l, t.info.leftBorder)
    ensures FreeRun(t, r - t.info.rightBorder + 1, t.info.rightBorder)
    ensures FreeRun(t, t.info.mid - t.info.leftRight + 1, t.info.leftRight)
    ensures FreeRun(t, t.info.mid + 1, t.info.rightLeft)
  {
    var a, b, mid := t.left.info, t.right.info, t.info.mid;
    RunsLift(t, l, a.leftBorder);
    RunsLift(t, mid - a.rightBorder + 1, a.rightBorder);
    RunsLift(t, mid + 1, b.leftBorder);
    RunsLift(t, r - b.rightBorder + 1, b.rightBorder);
    if IsEmpty(a) {
      EmptyIsFree(t.left);
      RunsLift(t, l, Size(a));
      RunsJoin(t, l, Size(a), b.leftBorder);
    }
    if IsEmpty(b) {
      EmptyIsFree(t.right);
      RunsLift(t, mid + 1, Size(b));
      RunsJoin(t, mid - a.rightBorder + 1, a.rightBorder, Size(b));
    }
  }

  lemma PushUpRun(t: Tree)
    requires t.Fork? && t.info.mark == 0
    requires t.info.l == t.left.info.l <= t.left.info.r == t.info.mid < t.info.r
    requires t.right.info.l == t.info.mid + 1 && t.right.info.r <= t.info.r
    requires HasRun(t.left, t.left.info.max) && HasRun(t.right, t.right.info.max)
    requires t.info.leftRight <= t.info.mid - t.info.l + 1 && t.info.rightLeft <= t.info.r - t.info.mid
    requires FreeRun(t, t.info.mid - t.info.leftRight + 1, t.info.leftRight)
    requires FreeRun(t, t.info.mid + 1, t.info.rightLeft)
    requires t.info.max in {t.left.info.max, t.right.info.max, t.info.leftRight + t.info.rightLeft}
    ensures HasRun(t, t.info.max)
  {
    hide Taken, FreeRun;
    var a, b, mid := t.left.info, t.right.info, t.info.mid;
    var sa :| a.l <= sa <= a.r - a.max + 1 && FreeRun(t.left, sa, a.max);
    var sb :| b.l <= sb <= b.r - b.max + 1 && FreeRun(t.right, sb, b.max);
    RunsLift(t, sa, a.max);
    RunsLift(t, sb, b.max);
    RunsJoin(t, mid - t.info.leftRight + 1, t.info.leftRight, t.info.rightLeft);
    var s := if t.info.max == a.max then sa else if t.info.max == b.max then sb else mid - t.info.leftRight + 1;
    assert t.info.l <= s <= t.info.r - t.info.max + 1 && FreeRun(t, s, t.info.max);
  }

  lemma PushUpGood(t: Tree, l: int, r: int)
    requires t.Fork? && t.info.mark == 0 && Shaped(t, l, r)
    requires Good(t.left, l, t.info.mid) && Good(t.right, t.info.mid + 1, r)
    requires t.info == PushUp(t.info, t.left.info, t.right.info)
    ensures Good(t, l, r)
  {
    hide Taken, FreeRun, HasRun;
    PushUpBorders(t, l, r);
    PushUpBounded(t, l, r);
    PushUpRun(t);
  }

  lemma PushUpBounded(t: Tree, l: int, r: int)
    requires t.Fork? && t.info.mark == 0 && Shaped(t, l, r)
    requires Bounded(t.left) && Bounded(t.right)
    requires t.info == PushUp(t.info, t.left.info, t.right.info)
    ensures Bounded(t)
  {
  }

  lemma TakenFork(t: Tree, u: int)
    requires t.Fork? && t.info.mark == 0
    ensures Taken(t, u) == Taken(if u <= t.info.mid then t.left else t.right, u)
  {
  }

  /** The fork case of an update, once its two halves are known. */
  function Rejoined(d: Tree, a: Tree, b: Tree): Tree { Fork(PushUp(d.info, a.info, b.info), a, b) }

  lemma UpdateCases(t: Tree, l: int, r: int, from: int, to: int, mark: int)
    requires Shaped(t, l, r)
    ensures var lo, hi := Max(from, l), Min(to, r);
            var t' := Update(t, from, to, mark);
            if hi < lo then t' == t
            else if lo == l && hi == r then t' == MarkRoot(t, mark)
            else t.Fork? && (var d := PushDown(t);
                             t' == Rejoined(d, Update(d.left, lo, hi, mark), Update(d.right, lo, hi, mark)))
  {
    hide PushUp, MarkRoot;
  }

  lemma RejoinedGood(d: Tree, l: int, r: int, a: Tree, b: Tree)
    requires d.Fork? && d.info.mark == 0 && d.info.l == l < r == d.info.r && d.info.mid == (l + r) / 2
    requires Good(a, l, d.info.mid) && Good(b, d.info.mid + 1, r)
    ensures Good(Rejoined(d, a, b), l, r)
    ensures forall u :: Taken(Rejoined(d, a, b), u) == if u <= d.info.mid then Taken(a, u) else Taken(b, u)
  {
    hide Sound, Bounded, FreeRun, HasRun;
    PushUpGood(Rejoined(d, a, b), l, r);
  }

  /** An update writes exactly its range, whatever marks and stale nodes the tree holds. */
  lemma {:induction false} UpdateFills(t: Tree, l: int, r: int, from: int, to: int, mark: int)
    requires Good(t, l, r) && mark in {-1, 1}
    ensures Good(Update(t, from, to, mark), l, r)
    ensures forall u :: l <= u <= r ==>
      (Taken(Update(t, from, to, mark), u) <==> if from <= u <= to then mark == 1 else Taken(t, u))
    decreases Height(t)
  {
    hide Sound, Bounded, Taken, Update, Rejoined, MarkRoot;
    var lo, hi := Max(from, l), Min(to, r);
    UpdateCases(t, l, r, from, to, mark);
    if lo <= hi {
      if lo == l && hi == r {
        MarkRootGood(t, l, r, mark);
      } else {
        PushDownGood(t, l, r);
        var d := PushDown(t);
        UpdateFills(d.left, l, d.info.mid, lo, hi, mark);
        UpdateFills(d.right, d.info.mid + 1, r, lo, hi, mark);
        RejoinedGood(d, l, r, Update(d.left, lo, hi, mark), Update(d.right, lo, hi, mark));
        forall u | l <= u <= r
          ensures Taken(t, u) == Taken(if u <= d.info.mid then d.left else d.right, u)
        {
          TakenFork(d, u);
        }
      }
    }
  }

  datatype Fill = Fill(from: int, to: int, mark: int)

  function UpdateAll(t: Tree, fills: seq<Fill>): Tree
    decreases |fills|
  {
    if fills == [] then t else UpdateAll(Update(t, fills[0].from, fills[0].to, fills[0].mark), fills[1..])
  }

  /** Unit `u` of a plain array after the same fills, starting from `taken`. */
  predicate Filled(fills: seq<Fill>, u: int, taken: bool)
    decreases |fills|
  {
    if fills == [] then taken
    else Filled(fills[1..], u, if fills[0].from <= u <= fills[0].to then fills[0].mark == 1 else taken)
  }

  /** Any sequence of updates denotes the array fill of those updates, with sound caches throughout. */
  lemma {:induction false} UpdatesFill(t: Tree, l: int, r: int, fills: seq<Fill>)
    requires Good(t, l, r) && forall f :: f in fills ==> f.mark in {-1, 1}
    ensures Good(UpdateAll(t, fills), l, r)
    ensures forall u :: l <= u <= r ==> (Taken(UpdateAll(t, fills), u) <==> Filled(fills, u, Taken(t, u)))
    decreases |fills|
  {
    hide Good, Taken, Update;
    if fills != [] {
      var f := fills[0];
      UpdateFills(t, l, r, f.from, f.to, f.mark);
      UpdatesFill(Update(t, f.from, f.to, f.mark), l, r, fills[1..]);
    }
  }

  // ----- initial tree, allocation -----

  lemma InitFork(l: int, r: int)
    requires l < r
    ensures var mid := (l + r) / 2;
            var a, b := Init(l, mid), Init(mid + 1, r);
            Init(l, r) == Fork(Info(l, r, mid, a.info.max, a.info.max, b.info.max, b.info.max,
                                    a.info.max, b.info.max, r - l + 1, 0), a, b)
  {
  }

  lemma InitLeaf(l: int)
    ensures Init(l, l) == Leaf(Info(l, l, l, 1, 1, 1, 1, 1, 1, 1, 0))
  {
  }

  lemma {:induction false} InitPlain(l: int, r: int)
    requires l <= r
    ensures var t := Init(l, r);
            Shaped(t, l, r) && Bounded(t) && t.info.mark == 0 && t.info.max == r - l + 1
    ensures forall u :: l <= u <= r ==> !Taken(Init(l, r), u)
    decreases r - l
  {
    hide Init;
    if l < r {
      InitFork(l, r);
      InitPlain(l, (l + r) / 2);
      InitPlain((l + r) / 2 + 1, r);
    } else {
      InitLeaf(l);
    }
  }

  lemma {:induction false} InitGood(l: int, r: int)
    requires l <= r
    ensures Good(Init(l, r), l, r) && Init(l, r).info.mark == 0 && Init(l, r).info.max == r - l + 1
    ensures forall u :: l <= u <= r ==> !Taken(Init(l, r), u)
    decreases r - l
  {
    hide Shaped, Bounded, Sound, FreeRun, Taken;
    InitPlain(l, r);
    if l < r {
      InitGood(l, (l + r) / 2);
      InitGood((l + r) / 2 + 1, r);
    }
    InitRuns(Init(l, r), l, r);
  }

  lemma InitRuns(t: Tree, l: int, r: int)
    requires Shaped(t, l, r) && Bounded(t) && t.info.max == r - l + 1
    requires forall u :: l <= u <= r ==> !Taken(t, u)
    requires t.Fork? ==> t.info.mark == 0 && Sound(t.left) && Sound(t.right)
    requires t.Fork? ==> t.info.leftMax <= t.left.info.max && t.info.rightMax <= t.right.info.max
    ensures Sound(t)
  {
    assert FreeRun(t, l, t.info.max);
  }

  /** Under a free mark anything inside the range will do: the walk never leaves the range. */
  lemma {:induction false} FindInRange(t: Tree, l: int, r: int, size: int)
    requires Shaped(t, l, r) && Bounded(t) && size >= 1
    ensures var s := FindSpace(t, size); s == -1 || l <= s <= r - size + 1
  {
    if t.Fork? {
      FindInRange(t.left, l, t.info.mid, size);
      FindInRange(t.right, t.info.mid + 1, r, size);
    }
  }

  /** A found position starts a run of `size` free units inside the range. */
  lemma {:induction false} FindIsFree(t: Tree, l: int, r: int, size: int)
    requires Good(t, l, r) && size >= 1 && t.info.mark != 1
    ensures var s := FindSpace(t, size); s == -1 || (l <= s <= r - size + 1 && FreeRun(t, s, size))
  {
    FindInRange(t, l, r, size);
    if t.Fork? && t.info.mark == 0 {
      var s := FindSpace(t, size);
      if t.info.leftMax >= size {
        FindIsFree(t.left, l, t.info.mid, size);
        RunsLift(t, s, size);
      } else if t.info.rightMax >= size {
        FindIsFree(t.right, t.info.mid + 1, r, size);
        RunsLift(t, s, size);
      } else if t.info.leftRight + t.info.rightLeft >= size {
        RunsJoin(t, s, t.info.leftRight, t.info.rightLeft);
      }
    }
  }

  /** A fresh tree has its first unit found, and a larger request up to the whole range as well. */
  lemma {:induction false} InitFind(l: int, r: int, size: int)
    requires l <= r && 1 <= size <= r - l + 1 && l >= 0
    ensures FindSpace(Init(l, r), size) == l
    decreases r - l
  {
    hide Shaped, Bounded, Sound, Taken;
    if l < r {
      var mid := (l + r) / 2;
      InitGood(l, mid);
      InitGood(mid + 1, r);
      if size <= mid - l + 1 {
        InitFind(l, mid, size);
      }
    }
  }
}

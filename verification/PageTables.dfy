/**
 Three-level page tables, as the kernel builds them: the frame that stands at an address, and what creating a
 mapping changes. What a frame is, is a parameter.
 */
module PageTables {
  import opened Results

  const PAGE := 0x1000
  const MEGA := 0x20_0000
  const GIGA := 0x4000_0000
  /** A table has one slot for every page of so many bytes; addresses beyond that share the slots. */
  const SPACE := 0x80_0000_0000

  function Index1(v: int): int { v / GIGA % 512 }

  function Index2(v: int): int { v / MEGA % 512 }

  function Index3(v: int): int { v / PAGE % 512 }

  /** An entry of the first level: a leaf for a whole gigabyte, or the two levels below it. */
  datatype Entry<+F> = Huge(frame: F) | Directory(tables: map<int, map<int, F>>)

  type Table<F> = map<int, Entry<F>>

  /** The frame that the walk for an address ends at. */
  function Mapped<F>(t: Table<F>, v: int): Option<F> {
    if Index1(v) !in t then None
    else
      match t[Index1(v)]
      case Huge(f) => Some(f)
      case Directory(d) =>
        if Index2(v) in d && Index3(v) in d[Index2(v)] then Some(d[Index2(v)][Index3(v)]) else None
  }

  /** The directory at an index of the first level, which may be missing. */
  function Tables<F>(t: Table<F>, i: int): map<int, map<int, F>>
    requires i in t ==> t[i].Directory?
  {
    if i in t then t[i].tables else map[]
  }

  function Leaves<F>(d: map<int, map<int, F>>, j: int): map<int, F> { if j in d then d[j] else map[] }

  /** A mapping is created; an entry that is there already stays. Page 0 and a huge leaf on the way are a panic. */
  function Create<F>(t: Table<F>, v: int, frame: F, large: bool): Result<Table<F>> {
    var i, j, k := Index1(v), Index2(v), Index3(v);
    if v < PAGE then Raised
    else if i !in t && large then Ok(t[i := Huge(frame)])
    else if i in t && t[i].Huge? then Raised
    else
      var d := Tables(t, i);
      var leaves := Leaves(d, j);
      Ok(t[i := Directory(d[j := if k in leaves then leaves else leaves[k := frame]])])
  }

  class AddressSpace<F> {
    var table: Table<F>

    constructor (table: Table<F>)
      ensures this.table == table
    {
      this.table := table;
    }

    /** Walks down, adding what is missing on the way; `ok` is false for a panic. */
    method CreateMapping(v: int, frame: F, large: bool) returns (ok: bool)
      modifies this
      ensures Create(old(table), v, frame, large) == if ok then Ok(table) else Raised
    {
      if v < PAGE {
        return false;
      }
      var i, j, k := Index1(v), Index2(v), Index3(v);
      var directory: map<int, map<int, F>> := map[];
      if i !in table {
        if large {
          table := table[i := Huge(frame)];
          return true;
        }
      } else {
        if table[i].Huge? {
          return false;
        }
        directory := table[i].tables;
      }
      var leaves: map<int, F> := map[];
      if j in directory {
        leaves := directory[j];
      }
      if k !in leaves {
        leaves := leaves[k := frame];
      }
      table := table[i := Directory(directory[j := leaves])];
      return true;
    }
  }

  // ----- what creating a mapping does -----

  /** The number of the page, as far as the table can tell pages apart. */
  function Slot(v: int): int { v / PAGE % 0x800_0000 }

  lemma IndicesOfPage(v: int)
    ensures Index1(v) == v / PAGE / 0x4_0000 % 512 && Index2(v) == v / PAGE / 512 % 512
    ensures Slot(v) == Index1(v) * 0x4_0000 + Index2(v) * 512 + Index3(v)
  {
    ThreeDigits(v / PAGE);
  }

  lemma ThreeDigits(n: int)
    ensures n % 0x800_0000 == n / 0x4_0000 % 512 * 0x4_0000 + n / 512 % 512 * 512 + n % 512
  {
    var a, b := n / 512, n / 0x4_0000;
    assert b == a / 512;
    assert n % 0x4_0000 == a % 512 * 512 + n % 512;
  }

  /** Two addresses share a slot exactly if they share all three indices. */
  lemma SameSlot(v: int, w: int)
    ensures Slot(v) == Slot(w) <==> Index1(v) == Index1(w) && Index2(v) == Index2(w) && Index3(v) == Index3(w)
  {
    hide Slot, Index1, Index2, Index3;
    IndicesOfPage(v);
    IndicesOfPage(w);
    IndexRanges(v);
    IndexRanges(w);
  }

  lemma IndexRanges(v: int)
    ensures 0 <= Index1(v) < 512 && 0 <= Index2(v) < 512 && 0 <= Index3(v) < 512
  {
  }

  /** No mapping can be created there. */
  predicate Barred<F>(t: Table<F>, v: int) { v < PAGE || (Index1(v) in t && t[Index1(v)].Huge?) }

  lemma CreatePanicsIff<F>(t: Table<F>, v: int, frame: F, large: bool)
    ensures Create(t, v, frame, large).Raised? <==> Barred(t, v)
  {
  }

  /** A new page mapping fills its slot if that is empty, and changes nothing else. */
  lemma CreateMeans<F>(t: Table<F>, v: int, frame: F, w: int)
    requires !Barred(t, v)
    ensures Create(t, v, frame, false).Ok?
    ensures var t' := Create(t, v, frame, false).value;
            && Mapped(t', w) == (if Mapped(t, w).Some? then Mapped(t, w)
                                 else if Slot(w) == Slot(v) then Some(frame) else None)
            && (Barred(t', w) <==> Barred(t, w))
  {
    hide Slot, Index1, Index2, Index3;
    SameSlot(v, w);
  }

  /** A gigabyte mapping where the first level is empty covers all addresses of its index. */
  lemma CreateHugeMeans<F>(t: Table<F>, v: int, frame: F, w: int)
    requires PAGE <= v && Index1(v) !in t
    ensures Create(t, v, frame, true).Ok?
    ensures var t' := Create(t, v, frame, true).value;
            && Mapped(t', w) == (if Index1(w) == Index1(v) then Some(frame) else Mapped(t, w))
            && (Barred(t', w) <==> Barred(t, w) || Index1(w) == Index1(v))
  {
    hide Index1, Index2, Index3;
  }

  // ----- the table every process starts with -----

  /** The frames of the kernel: device page, memory below and above 2 GiB, fast calls, and the two shared pages. */
  datatype Kernel<+F> = Kernel(device: F, low: F, high: F, fast: F, text: F, data: F)

  const DEVICE := 0x3800_1000
  const LOW := 0x4000_0000
  const HIGH := 0x8000_0000
  const FAST := 0x2_0000_0000
  const SHARED_TEXT := 0x3_0000_0000
  const SHARED_DATA := 0x3_0000_1000

  method InitPageTable<F>(k: Kernel<F>) returns (space: AddressSpace<F>)
    ensures fresh(space) && space.table == Initial(k)
  {
    hide Index1, Index2, Index3;
    InitialIndices();
    space := new AddressSpace(map[]);
    var ok := space.CreateMapping(DEVICE, k.device, false);
    ghost var device := Directory(map[0x1c0 := map[1 := k.device]]);
    assert space.table == map[0 := device];
    ok := space.CreateMapping(LOW, k.low, true);
    ok := space.CreateMapping(HIGH, k.high, true);
    assert space.table == map[0 := device, 1 := Huge(k.low), 2 := Huge(k.high)];
    ok := space.CreateMapping(FAST, k.fast, false);
    ghost var fast := Directory(map[0 := map[0 := k.fast]]);
    assert space.table == map[0 := device, 1 := Huge(k.low), 2 := Huge(k.high), 8 := fast];
    ok := space.CreateMapping(SHARED_TEXT, k.text, false);
    ok := space.CreateMapping(SHARED_DATA, k.data, false);
    assert space.table[12] == Directory(map[0 := map[0 := k.text, 1 := k.data]]);
  }

  lemma InitialIndices()
    ensures Index1(DEVICE) == 0 && Index2(DEVICE) == 0x1c0 && Index3(DEVICE) == 1
    ensures Index1(LOW) == 1 && Index1(HIGH) == 2
    ensures Index1(FAST) == 8 && Index2(FAST) == Index3(FAST) == 0
    ensures Index1(SHARED_TEXT) == Index1(SHARED_DATA) == 12 && Index2(SHARED_TEXT) == Index2(SHARED_DATA) == 0
    ensures Index3(SHARED_TEXT) == 0 && Index3(SHARED_DATA) == 1
  {
  }

  function Initial<F>(k: Kernel<F>): Table<F> {
    map[0 := Directory(map[0x1c0 := map[1 := k.device]]),
        1 := Huge(k.low), 2 := Huge(k.high),
        8 := Directory(map[0 := map[0 := k.fast]]),
        12 := Directory(map[0 := map[0 := k.text, 1 := k.data]])]
  }

  /** Which addresses of the first 512 GiB a program may not use, and which it does not get. */
  lemma InitialMeans<F>(k: Kernel<F>, v: int)
    requires 0 <= v < SPACE
    ensures Barred(Initial(k), v) <==> v < PAGE || LOW <= v < LOW + 2 * GIGA
    ensures Mapped(Initial(k), v) ==
      if LOW <= v < HIGH then Some(k.low)
      else if HIGH <= v < HIGH + GIGA then Some(k.high)
      else
        var p := v / PAGE * PAGE;
        if p == DEVICE then Some(k.device) else if p == FAST then Some(k.fast)
        else if p == SHARED_TEXT then Some(k.text) else if p == SHARED_DATA then Some(k.data) else None
  {
    hide Index1, Index2, Index3;
    InitialIndices();
    Gigabytes(v);
    PageIs(v, DEVICE);
    PageIs(v, FAST);
    PageIs(v, SHARED_TEXT);
    PageIs(v, SHARED_DATA);
  }

  lemma Gigabytes(v: int)
    requires 0 <= v < SPACE
    ensures Index1(v) == 1 <==> LOW <= v < HIGH
    ensures Index1(v) == 2 <==> HIGH <= v < HIGH + GIGA
  {
  }

  /** Inside the space of the table an address is in a page exactly if it has the page's indices. */
  lemma PageIs(v: int, p: int)
    requires 0 <= v < SPACE && 0 <= p < SPACE && p % PAGE == 0
    ensures v / PAGE * PAGE == p <==> Index1(v) == Index1(p) && Index2(v) == Index2(p) && Index3(v) == Index3(p)
  {
    hide Index1, Index2, Index3;
    SameSlot(v, p);
  }
}

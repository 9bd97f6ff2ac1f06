/**
 Loading the segments of an executable, page by page. Addresses and offsets are 64-bit unsigned and
 wrap; file positions are 32-bit.
 */
module ElfLoader {
  import opened Arithmetic
  import opened PageTables
  import opened Results
  import opened Sequences
  import opened Words

  const W := 0x1_0000_0000_0000_0000
  const FILE_LIMIT := 0x1_0000_0000

  type Size = x: int | 0 <= x < W

  datatype Segment = Segment(isLoad: bool, writable: bool, offset: Size, vaddr: Size, filesz: Size, memsz: Size)

  datatype Page = Page(vaddr: int, bytes: Bytes)

  // ----- what a segment means -----

  function FileByte(file: Bytes, i: int): bv8 { if 0 <= i < |file| then file[i] else 0 }

  /** The byte a segment gives to an address: from the file inside the file part, zero elsewhere. */
  function SegmentByte(file: Bytes, s: Segment, a: int): bv8 {
    if s.vaddr <= a < s.vaddr + s.filesz then FileByte(file, a - s.vaddr + s.offset) else 0
  }

  // ----- what the loader computes -----

  /** The file position that would go to the start of the page at `p`. */
  function Source(s: Segment, p: int): int { (p - s.vaddr + s.offset) % W }

  function CopyStart(s: Segment, p: int): int { Max(Source(s, p), s.offset) }

  function CopyEnd(s: Segment, p: int): int {
    Min((Source(s, p) + PAGE) % W, (s.offset + s.filesz) % W)
  }

  function PageByte(file: Bytes, s: Segment, p: int, i: int): bv8 {
    var x := Source(s, p) + i;
    var from := CopyStart(s, p);
    if from <= x < CopyEnd(s, p) then FileByte(file, from % FILE_LIMIT + (x - from)) else 0
  }

  function PageBytes(file: Bytes, s: Segment, p: int): (r: Bytes)
    ensures |r| == PAGE
  {
    seq(PAGE, i => PageByte(file, s, p, i))
  }

  function FirstPage(s: Segment): int { s.vaddr / PAGE * PAGE }

  function EndPage(s: Segment): int {
    ((s.vaddr + s.memsz) % W + PAGE - 1) % W / PAGE * PAGE
  }

  predicate Loads(s: Segment) { s.isLoad && s.filesz != 0 }

  /** The pages from `p` on. */
  function PagesFrom(file: Bytes, s: Segment, p: int): seq<Page>
    decreases EndPage(s) - p
  {
    if p < EndPage(s) then [Page(p, PageBytes(file, s, p))] + PagesFrom(file, s, p + PAGE) else []
  }

  function PagesOf(file: Bytes, s: Segment): seq<Page> {
    if Loads(s) then PagesFrom(file, s, FirstPage(s)) else []
  }

  /** The memory of the process: the page that stands at an address. */
  type Memory = Table<Bytes>

  /** Pages bound one after the other; the first one in a slot stays. */
  function Bind(m: Memory, pages: seq<Page>): Result<Memory> {
    if pages == [] then Ok(m)
    else
      var n := |pages| - 1;
      match Bind(m, pages[..n])
      case Raised => Raised
      case Ok(r) => Create(r, pages[n].vaddr, pages[n].bytes, false)
  }

  lemma {:induction false} BindConcat(m: Memory, a: seq<Page>, b: seq<Page>)
    ensures Bind(m, a + b) == match Bind(m, a) case Raised => Raised case Ok(r) => Bind(r, b)
  {
    hide Create;
    if b == [] {
      assert a + b == a;
    } else {
      var n := |b| - 1;
      BindConcat(m, a, b[..n]);
      assert (a + b)[..|a| + n] == a + b[..n];
    }
  }

  lemma BindOne(m: Memory, page: Page)
    ensures Bind(m, [page]) == Create(m, page.vaddr, page.bytes, false)
  {
    hide Create;
    assert [page][..0] == [];
  }

  /** What a process keeps: its text and data pages in order, and its memory. */
  datatype Image = Image(text: seq<Page>, data: seq<Page>, memory: Memory)

  function BindTo(image: Image, pages: seq<Page>, writable: bool): Result<Image> {
    match Bind(image.memory, pages)
    case Raised => Raised
    case Ok(m) => Ok(Image(if writable then image.text else image.text + pages,
                           if writable then image.data + pages else image.data, m))
  }

  lemma BindToConcat(image: Image, a: seq<Page>, b: seq<Page>, writable: bool)
    ensures BindTo(image, a + b, writable) ==
      match BindTo(image, a, writable) case Raised => Raised case Ok(r) => BindTo(r, b, writable)
  {
    hide Bind;
    BindConcat(image.memory, a, b);
    Assoc(image.text, a, b);
    Assoc(image.data, a, b);
  }

  lemma BindNothing(image: Image, writable: bool)
    ensures BindTo(image, [], writable) == Ok(image)
  {
    assert image.text + [] == image.text && image.data + [] == image.data;
  }

  /** How a binding ended: with the new image, or in a panic. */
  function Ended(ok: bool, image: Image): Result<Image> { if ok then Ok(image) else Raised }

  // ----- the loops -----

  class ElfControl {
    const space: AddressSpace<Bytes>
    var text: seq<Page>
    var data: seq<Page>

    constructor (space: AddressSpace<Bytes>)
      ensures this.space == space && Now() == Image([], [], space.table)
    {
      this.space := space;
      text, data := [], [];
    }

    ghost function Now(): Image
      reads this, space
    {
      Image(text, data, space.table)
    }

    /** Copies the buffer to a new page, maps that, and lists it whether or not it is the one that stands there. */
    method BindPage(p: int, buf: array<bv8>, writable: bool) returns (ok: bool)
      modifies this, space
      ensures BindTo(old(Now()), [Page(p, buf[..])], writable) == Ended(ok, Now())
    {
      hide Create;
      var page := Page(p, buf[..]);
      BindOne(space.table, page);
      ok := space.CreateMapping(p, page.bytes, false);
      if !ok {
        return;
      }
      if writable {
        data := data + [page];
      } else {
        text := text + [page];
      }
    }
  }

  /** Seeks to an offset and reads up to `count` bytes; the file's end stops both. */
  method ReadAt(file: Bytes, offset: int, buf: array<bv8>, at: nat, count: nat)
    requires 0 <= offset && at + count <= buf.Length
    requires forall i :: 0 <= i < buf.Length ==> buf[i] == 0
    modifies buf
    ensures forall i :: 0 <= i < buf.Length ==>
      buf[i] == if at <= i < at + count then FileByte(file, offset % FILE_LIMIT + (i - at)) else 0
  {
    var pos := Min(offset % FILE_LIMIT, |file|);
    var n := Min(count, |file| - pos);
    for k := 0 to n
      invariant forall i :: 0 <= i < buf.Length ==>
        buf[i] == if at <= i < at + k then FileByte(file, pos + (i - at)) else 0
    {
      buf[at + k] := file[pos + k];
    }
  }

  /** Fills the page buffer; every index stays inside it, whatever wraps. */
  method FillPage(file: Bytes, s: Segment, p: Size, buf: array<bv8>)
    requires buf.Length == PAGE
    modifies buf
    ensures buf[..] == PageBytes(file, s, p)
  {
    hide FileByte;
    for k := 0 to PAGE
      invariant forall i :: 0 <= i < k ==> buf[i] == 0
    {
      buf[k] := 0;
    }
    var source := (p - s.vaddr + s.offset) % W;
    var copyStart := Max(source, s.offset);
    var copyEnd := Min((source + PAGE) % W, (s.offset + s.filesz) % W);
    if copyStart < copyEnd {
      CopyFits(s, p);
      ReadAt(file, copyStart, buf, copyStart - source, copyEnd - copyStart);
    }
    forall i | 0 <= i < PAGE ensures buf[i] == PageByte(file, s, p, i) {
    }
  }

  lemma CopyFits(s: Segment, p: int)
    requires CopyStart(s, p) < CopyEnd(s, p)
    ensures Source(s, p) <= CopyStart(s, p) && CopyEnd(s, p) <= Source(s, p) + PAGE
  {
  }

  method LoadPages(file: Bytes, s: Segment, start: int, end: int, control: ElfControl) returns (ok: bool)
    requires 0 <= start && start % PAGE == 0 && end == EndPage(s)
    modifies control, control.space
    ensures BindTo(old(control.Now()), PagesFrom(file, s, start), s.writable) == Ended(ok, control.Now())
  {
    hide PageBytes, EndPage, BindTo;
    EndInRange(s);
    var buf := new bv8[PAGE];
    ghost var was, all := control.Now(), PagesFrom(file, s, start);
    ghost var done: seq<Page> := [];
    BindNothing(was, s.writable);
    var p := start;
    while p < end
      invariant 0 <= p
      invariant done + PagesFrom(file, s, p) == all
      invariant BindTo(was, done, s.writable) == Ok(control.Now())
      decreases end - p
    {
      FillPage(file, s, p, buf);
      ghost var page, rest := Page(p, buf[..]), PagesFrom(file, s, p + PAGE);
      BindToConcat(was, done, [page], s.writable);
      BindToConcat(was, done + [page], rest, s.writable);
      Assoc(done, [page], rest);
      ok := control.BindPage(p, buf, s.writable);
      if !ok {
        return;
      }
      done := done + [page];
      p := p + PAGE;
    }
    assert done + [] == done;
    ok := true;
  }

  lemma EndInRange(s: Segment)
    ensures 0 <= EndPage(s) < W
  {
  }

  method LoadSegment(file: Bytes, s: Segment, control: ElfControl) returns (ok: bool)
    modifies control, control.space
    ensures BindTo(old(control.Now()), PagesOf(file, s), s.writable) == Ended(ok, control.Now())
    ensures !s.isLoad || s.filesz == 0 ==> ok && control.Now() == old(control.Now())
  {
    hide PagesFrom;
    if !s.isLoad || s.filesz == 0 {
      BindNothing(control.Now(), s.writable);
      return true;
    }
    var targetStart := s.vaddr / PAGE * PAGE;
    var targetEnd := (s.vaddr + s.memsz) % W;
    targetEnd := (targetEnd + PAGE - 1) % W / PAGE * PAGE;
    ok := LoadPages(file, s, targetStart, targetEnd, control);
  }

  /** All segments in order, into a table that may have entries already. */
  function Load(m: Memory, file: Bytes, segments: seq<Segment>): Result<Image> {
    if segments == [] then Ok(Image([], [], m))
    else
      var n := |segments| - 1;
      match Load(m, file, segments[..n])
      case Raised => Raised
      case Ok(image) => BindTo(image, PagesOf(file, segments[n]), segments[n].writable)
  }

  method LoadElf(file: Bytes, segments: seq<Segment>, space: AddressSpace<Bytes>)
    returns (ok: bool, control: ElfControl)
    modifies space
    ensures fresh(control) && control.space == space
    ensures Load(old(space.table), file, segments) == Ended(ok, control.Now())
  {
    hide PagesOf, BindTo;
    ghost var m := space.table;
    control := new ElfControl(space);
    for i := 0 to |segments|
      invariant fresh(control) && control.space == space
      invariant Load(m, file, segments[..i]) == Ok(control.Now())
    {
      assert segments[..i + 1][..i] == segments[..i];
      PanicStays(m, file, segments, i + 1);
      ok := LoadSegment(file, segments[i], control);
      if !ok {
        return;
      }
    }
    assert segments[..|segments|] == segments;
    ok := true;
  }

  lemma {:induction false} PanicStays(m: Memory, file: Bytes, segments: seq<Segment>, n: nat)
    requires n <= |segments|
    ensures Load(m, file, segments[..n]).Raised? ==> Load(m, file, segments).Raised?
    decreases |segments| - n
  {
    hide PagesOf, BindTo;
    if n == |segments| {
      assert segments[..n] == segments;
    } else {
      assert segments[..n + 1][..n] == segments[..n];
      PanicStays(m, file, segments, n + 1);
    }
  }

  // ----- the pages are the segment -----

  /** No sum of the segment's fields leaves its width. */
  predicate NoOverflow(s: Segment) {
    && s.vaddr + s.memsz + PAGE <= W
    && s.offset + s.memsz + PAGE <= W
    && s.offset + s.filesz <= FILE_LIMIT
  }

  predicate InPages(s: Segment, p: int) { p % PAGE == 0 && FirstPage(s) <= p < EndPage(s) }

  /** The bound pages are the least cover: exactly the pages that meet the memory part. */
  lemma PagesAreTheCover(s: Segment, p: int)
    requires NoOverflow(s) && s.memsz > 0
    ensures InPages(s, p) <==> p % PAGE == 0 && p < s.vaddr + s.memsz && s.vaddr < p + PAGE
  {
    var last := s.vaddr + s.memsz;
    assert EndPage(s) == (last + PAGE - 1) / PAGE * PAGE;
  }

  /** The page at `p` starts before the segment, and its file position would be negative. */
  predicate Underflows(s: Segment, p: int) { s.offset + p < s.vaddr }

  /** The page as the segment means it. */
  function SegmentPage(file: Bytes, s: Segment, p: int): (r: Bytes)
    ensures |r| == PAGE
  {
    seq(PAGE, i => SegmentByte(file, s, p + i))
  }

  const ZERO_PAGE: Bytes := Zeros(PAGE)

  /** A page holds the segment's bytes exactly if its file position does not underflow, or they are all zero. */
  lemma PageHoldsSegmentIff(file: Bytes, s: Segment, p: int)
    requires NoOverflow(s) && InPages(s, p)
    ensures PageBytes(file, s, p) == SegmentPage(file, s, p)
            <==> !Underflows(s, p) || SegmentPage(file, s, p) == ZERO_PAGE
  {
    hide PageByte, SegmentByte, Underflows;
    var page, wanted := PageBytes(file, s, p), SegmentPage(file, s, p);
    forall i | 0 <= i < PAGE
      ensures page[i] == if Underflows(s, p) then 0 else wanted[i]
    {
      PageByteMeans(file, s, p, i);
    }
    if Underflows(s, p) {
      assert page == ZERO_PAGE;
    } else {
      assert page == wanted;
    }
  }

  lemma PageByteMeans(file: Bytes, s: Segment, p: int, i: int)
    requires NoOverflow(s) && InPages(s, p) && 0 <= i < PAGE
    ensures PageByte(file, s, p, i) == if Underflows(s, p) then 0 else SegmentByte(file, s, p + i)
  {
    hide FileByte, Source, InPages, NoOverflow;
    SourceMeans(s, p);
    InSegment(s, p);
    FileEnd(s);
  }

  lemma FileEnd(s: Segment)
    requires NoOverflow(s)
    ensures (s.offset + s.filesz) % W == s.offset + s.filesz <= FILE_LIMIT
  {
  }

  lemma SourceMeans(s: Segment, p: int)
    requires NoOverflow(s) && InPages(s, p)
    ensures var x := p - s.vaddr + s.offset;
            if Underflows(s, p) then Source(s, p) == x + W > W - PAGE && (Source(s, p) + PAGE) % W == x + PAGE
            else Source(s, p) == x && x + PAGE <= W
  {
    InSegment(s, p);
  }

  lemma InSegment(s: Segment, p: int)
    requires NoOverflow(s) && InPages(s, p)
    ensures s.vaddr - PAGE < p && (p < s.vaddr + s.memsz || (s.memsz == 0 && p < s.vaddr))
  {
  }

  /** A segment one byte into its page that starts the file: its first byte is lost. */
  lemma UnderflowExample(file: Bytes)
    requires file != [] && file[0] == 0x7f
    ensures var s := Segment(true, false, 0, 0x1001, 1, 1);
            PageBytes(file, s, 0x1000) != SegmentPage(file, s, 0x1000)
  {
    hide PageBytes, SegmentPage, SegmentByte, Underflows, NoOverflow, InPages, Zeros;
    var s := Segment(true, false, 0, 0x1001, 1, 1);
    LostByte(file, s);
    PageHoldsSegmentIff(file, s, 0x1000);
    SegmentPageAt(file, s, 0x1000, 1);
    ZeroPageAt(1);
  }

  lemma LostByte(file: Bytes, s: Segment)
    requires file != [] && s == Segment(true, false, 0, 0x1001, 1, 1)
    ensures SegmentByte(file, s, 0x1001) == file[0]
    ensures Underflows(s, 0x1000) && NoOverflow(s) && InPages(s, 0x1000)
  {
  }

  lemma SegmentPageAt(file: Bytes, s: Segment, p: int, i: nat)
    requires i < PAGE
    ensures SegmentPage(file, s, p)[i] == SegmentByte(file, s, p + i)
  {
  }

  lemma ZeroPageAt(i: nat)
    requires i < PAGE
    ensures |ZERO_PAGE| == PAGE && ZERO_PAGE[i] == 0
  {
  }

  /** With the offset congruent to the address modulo the page size nothing underflows. */
  lemma CongruentNeverUnderflows(s: Segment, p: int)
    requires s.offset % PAGE == s.vaddr % PAGE && FirstPage(s) <= p
    ensures !Underflows(s, p)
  {
  }

  // ----- the whole program -----

  /** The pages of the segments of some kinds (writable or not), in order. */
  function PagesIn(file: Bytes, segments: seq<Segment>, kinds: set<bool>): seq<Page> {
    if segments == [] then []
    else
      var n := |segments| - 1;
      var rest := PagesIn(file, segments[..n], kinds);
      if segments[n].writable in kinds then rest + PagesOf(file, segments[n]) else rest
  }

  const ALL := {false, true}

  /**
   A load is the binding of all pages in order; the text pages are those of the segments that are not writable,
   the data pages those of the others.
   */
  lemma {:induction false} TextAndData(m: Memory, file: Bytes, segments: seq<Segment>)
    ensures Load(m, file, segments) ==
      match Bind(m, PagesIn(file, segments, ALL))
      case Raised => Raised
      case Ok(r) => Ok(Image(PagesIn(file, segments, {false}), PagesIn(file, segments, {true}), r))
  {
    hide PagesOf, Create;
    if segments != [] {
      var n := |segments| - 1;
      TextAndData(m, file, segments[..n]);
      BindConcat(m, PagesIn(file, segments[..n], ALL), PagesOf(file, segments[n]));
    }
  }

  /** The bytes of the first page in the slot of an address. */
  function FirstAt(pages: seq<Page>, v: int): Option<Bytes> {
    if pages == [] then None
    else
      var n := |pages| - 1;
      if FirstAt(pages[..n], v).Some? then FirstAt(pages[..n], v)
      else if Slot(v) == Slot(pages[n].vaddr) then Some(pages[n].bytes) else None
  }

  function Else<T>(a: Option<T>, b: Option<T>): Option<T> { if a.Some? then a else b }

  lemma {:induction false} FirstAtConcat(a: seq<Page>, b: seq<Page>, v: int)
    ensures FirstAt(a + b, v) == Else(FirstAt(a, v), FirstAt(b, v))
  {
    hide Slot;
    if b == [] {
      assert a + b == a;
    } else {
      var n := |b| - 1;
      FirstAtConcat(a, b[..n], v);
      assert (a + b)[..|a| + n] == a + b[..n];
    }
  }

  ghost predicate SomeBarred(m: Memory, pages: seq<Page>) {
    exists i :: 0 <= i < |pages| && Barred(m, pages[i].vaddr)
  }

  /** Binding panics exactly if some page is barred; otherwise what was mapped stays, and else the first page stands. */
  lemma {:induction false} BindMeans(m: Memory, pages: seq<Page>, v: int)
    ensures Bind(m, pages).Raised? <==> SomeBarred(m, pages)
    ensures Bind(m, pages).Ok? ==>
      var r := Bind(m, pages).value;
      Mapped(r, v) == Else(Mapped(m, v), FirstAt(pages, v)) && (Barred(r, v) <==> Barred(m, v))
  {
    hide Slot, Barred, Mapped, Create;
    if pages != [] {
      var n := |pages| - 1;
      var last := pages[n];
      BindMeans(m, pages[..n], v);
      BindMeans(m, pages[..n], last.vaddr);
      BarredSplit(m, pages);
      if Bind(m, pages[..n]).Ok? {
        var r := Bind(m, pages[..n]).value;
        CreatePanicsIff(r, last.vaddr, last.bytes, false);
        if !Barred(r, last.vaddr) {
          CreateMeans(r, last.vaddr, last.bytes, v);
        }
      }
    }
  }

  lemma BarredSplit(m: Memory, pages: seq<Page>)
    requires pages != []
    ensures var n := |pages| - 1;
            SomeBarred(m, pages) <==> SomeBarred(m, pages[..n]) || Barred(m, pages[n].vaddr)
  {
    hide Barred;
    var n := |pages| - 1;
    if SomeBarred(m, pages[..n]) {
      var i :| 0 <= i < n && Barred(m, pages[..n][i].vaddr);
      assert Barred(m, pages[i].vaddr);
    }
    if SomeBarred(m, pages) && !Barred(m, pages[n].vaddr) {
      var i :| 0 <= i < |pages| && Barred(m, pages[i].vaddr);
      assert pages[..n][i] == pages[i];
    }
  }

  // ----- which segment's page stands -----

  /** The first page from `q` on that has the slot of an address. */
  function HomeFrom(q: int, v: int): int { q + (v / PAGE * PAGE - q) % SPACE }

  function Home(s: Segment, v: int): int { HomeFrom(FirstPage(s), v) }

  /** The segment binds a page to the slot of the address. */
  predicate Owns(s: Segment, v: int) { Loads(s) && Home(s, v) < EndPage(s) }

  lemma HomeStep(q: int, v: int)
    requires q % PAGE == 0
    ensures HomeFrom(q, v) == if Slot(v) == Slot(q) then q else HomeFrom(q + PAGE, v)
    ensures HomeFrom(q, v) >= q
  {
    var n, k := v / PAGE, q / PAGE;
    ScaledMod(n - k);
    ScaledMod(n - k - 1);
    SlotsMod(n, k);
  }

  lemma ScaledMod(d: int)
    ensures (d * PAGE) % SPACE == d % 0x800_0000 * PAGE
  {
    var e := d / 0x800_0000;
    assert d * PAGE == e * SPACE + d % 0x800_0000 * PAGE;
  }

  lemma SlotsMod(n: int, k: int)
    ensures n % 0x800_0000 == k % 0x800_0000 <==> (n - k) % 0x800_0000 == 0
    ensures (n - k) % 0x800_0000 != 0 ==> (n - k - 1) % 0x800_0000 == (n - k) % 0x800_0000 - 1
  {
  }

  /** Of the pages of a segment, the first one in the slot stands. */
  lemma {:induction false} FirstOfPages(file: Bytes, s: Segment, q: int, v: int)
    requires q % PAGE == 0
    ensures FirstAt(PagesFrom(file, s, q), v) ==
      if HomeFrom(q, v) < EndPage(s) then Some(PageBytes(file, s, HomeFrom(q, v))) else None
    decreases EndPage(s) - q
  {
    hide Slot, HomeFrom, EndPage, PageBytes;
    HomeStep(q, v);
    if q < EndPage(s) {
      var page := Page(q, PageBytes(file, s, q));
      FirstOfPages(file, s, q + PAGE, v);
      FirstAtConcat([page], PagesFrom(file, s, q + PAGE), v);
      FirstOfOne(page, v);
    }
  }

  lemma FirstOfOne(page: Page, v: int)
    ensures FirstAt([page], v) == if Slot(v) == Slot(page.vaddr) then Some(page.bytes) else None
  {
    hide Slot;
    assert [page][..0] == [];
  }

  function Own(file: Bytes, s: Segment, v: int): Option<Bytes> {
    if Owns(s, v) then Some(PageBytes(file, s, Home(s, v))) else None
  }

  lemma FirstOfSegment(file: Bytes, s: Segment, v: int)
    ensures FirstAt(PagesOf(file, s), v) == Own(file, s, v)
  {
    hide PageBytes, HomeFrom, EndPage, PagesFrom;
    if Loads(s) {
      FirstOfPages(file, s, FirstPage(s), v);
    }
  }

  /** Segment number `k` is the first of the given kinds that owns the address. */
  ghost predicate FirstOwner(segments: seq<Segment>, kinds: set<bool>, k: int, v: int) {
    && 0 <= k < |segments| && segments[k].writable in kinds && Owns(segments[k], v)
    && forall j :: 0 <= j < k ==> !(segments[j].writable in kinds && Owns(segments[j], v))
  }

  ghost predicate Unowned(segments: seq<Segment>, kinds: set<bool>, v: int) {
    forall j :: 0 <= j < |segments| ==> !(segments[j].writable in kinds && Owns(segments[j], v))
  }

  /** The first page in a slot is that of the first owner. */
  lemma {:induction false} FirstIsOwners(file: Bytes, segments: seq<Segment>, kinds: set<bool>, v: int)
    ensures Unowned(segments, kinds, v) ==> FirstAt(PagesIn(file, segments, kinds), v) == None
    ensures forall k :: FirstOwner(segments, kinds, k, v) ==>
      FirstAt(PagesIn(file, segments, kinds), v) == Own(file, segments[k], v)
  {
    hide Owns, PageBytes, Home, PagesOf, FirstAt;
    if segments == [] {
      FirstOfNone(v);
    } else {
      var n := |segments| - 1;
      var front, s := segments[..n], segments[n];
      FirstIsOwners(file, front, kinds, v);
      FirstAtConcat(PagesIn(file, front, kinds), PagesOf(file, s), v);
      FirstOfSegment(file, s, v);
      forall k | FirstOwner(segments, kinds, k, v)
        ensures FirstAt(PagesIn(file, segments, kinds), v) == Own(file, segments[k], v)
      {
        if k < n {
          assert FirstOwner(front, kinds, k, v);
        } else {
          assert Unowned(front, kinds, v);
        }
      }
    }
  }

  lemma FirstOfNone(v: int)
    ensures FirstAt([], v) == None
  {
  }

  /** What was mapped before stays; any other page is its first owner's, and one without an owner is not mapped. */
  lemma LoadedPage(m: Memory, file: Bytes, segments: seq<Segment>, k: int, v: int)
    requires Load(m, file, segments).Ok?
    ensures var r := Load(m, file, segments).value.memory;
            && (Mapped(m, v).Some? ==> Mapped(r, v) == Mapped(m, v))
            && (Mapped(m, v) == None && FirstOwner(segments, ALL, k, v) ==>
                  Mapped(r, v) == Some(PageBytes(file, segments[k], Home(segments[k], v))))
            && (Mapped(m, v) == None && Unowned(segments, ALL, v) ==> Mapped(r, v) == None)
  {
    hide Load, Mapped, Bind, PageBytes, Owns, Home, FirstAt, PagesIn;
    TextAndData(m, file, segments);
    BindMeans(m, PagesIn(file, segments, ALL), v);
    FirstIsOwners(file, segments, ALL, v);
  }

  /**
   The page of segment `k` stands at an address it owns exactly if nothing stood there before and no earlier
   segment owns it, or what stands there has the same bytes.
   */
  lemma PageStandsIff(m: Memory, file: Bytes, segments: seq<Segment>, k: int, v: int)
    requires Load(m, file, segments).Ok? && 0 <= k < |segments| && Owns(segments[k], v)
    ensures var mine := PageBytes(file, segments[k], Home(segments[k], v));
            Mapped(Load(m, file, segments).value.memory, v) == Some(mine) <==>
              if Mapped(m, v).Some? then Mapped(m, v) == Some(mine)
              else forall j :: 0 <= j < k && FirstOwner(segments, ALL, j, v) ==>
                     PageBytes(file, segments[j], Home(segments[j], v)) == mine
  {
    hide Load, Mapped, PageBytes, Owns, Home;
    var first := TheFirst(segments, ALL, k, v);
    LoadedPage(m, file, segments, first, v);
    forall j | FirstOwner(segments, ALL, j, v) ensures j == first {
    }
  }

  lemma {:induction false} TheFirst(segments: seq<Segment>, kinds: set<bool>, k: int, v: int) returns (first: int)
    requires 0 <= k < |segments| && segments[k].writable in kinds && Owns(segments[k], v)
    ensures first <= k && FirstOwner(segments, kinds, first, v)
    decreases k
  {
    hide Owns;
    if j :| 0 <= j < k && segments[j].writable in kinds && Owns(segments[j], v) {
      first := TheFirst(segments, kinds, j, v);
    } else {
      first := k;
    }
  }

  predicate HasPage(segments: seq<Segment>, k: int, p: int) {
    0 <= k < |segments| && Loads(segments[k]) && InPages(segments[k], p)
  }

  /** A load panics exactly if some page of some segment is barred. */
  lemma LoadPanicsIff(m: Memory, file: Bytes, segments: seq<Segment>)
    ensures Load(m, file, segments).Raised? <==>
      exists k, p :: HasPage(segments, k, p) && Barred(m, p)
  {
    hide Load, Bind, PagesIn, Barred, HasPage;
    TextAndData(m, file, segments);
    BindMeans(m, PagesIn(file, segments, ALL), 0);
    AllBarred(m, file, segments);
  }

  lemma {:induction false} AllBarred(m: Memory, file: Bytes, segments: seq<Segment>)
    ensures SomeBarred(m, PagesIn(file, segments, ALL)) <==>
      exists k, p :: HasPage(segments, k, p) && Barred(m, p)
  {
    hide Barred, InPages, Loads, PagesOf, SomeBarred;
    if segments == [] {
      NoneBarred(m);
    } else {
      var n := |segments| - 1;
      var front, s := segments[..n], segments[n];
      AllBarred(m, file, front);
      BarredConcat(m, PagesIn(file, front, ALL), PagesOf(file, s));
      SegmentBarred(m, file, s);
      forall k, p ensures HasPage(segments, k, p) <==> HasPage(front, k, p) || (k == n && HasPage(segments, n, p)) {
      }
      if Loads(s) && exists p :: InPages(s, p) && Barred(m, p) {
        var p :| InPages(s, p) && Barred(m, p);
        assert HasPage(segments, n, p);
      }
      if k, p :| HasPage(front, k, p) && Barred(m, p) {
        assert HasPage(segments, k, p);
      }
    }
  }

  lemma NoneBarred(m: Memory)
    ensures !SomeBarred(m, [])
  {
  }

  lemma BarredConcat(m: Memory, a: seq<Page>, b: seq<Page>)
    ensures SomeBarred(m, a + b) <==> SomeBarred(m, a) || SomeBarred(m, b)
  {
    hide Barred;
    if SomeBarred(m, a) {
      var i :| 0 <= i < |a| && Barred(m, a[i].vaddr);
      assert (a + b)[i] == a[i];
    }
    if SomeBarred(m, b) {
      var i :| 0 <= i < |b| && Barred(m, b[i].vaddr);
      assert (a + b)[|a| + i] == b[i];
    }
  }

  lemma SegmentBarred(m: Memory, file: Bytes, s: Segment)
    ensures SomeBarred(m, PagesOf(file, s)) <==> Loads(s) && exists p :: InPages(s, p) && Barred(m, p)
  {
    hide Barred, PagesFrom, SomeBarred, EndPage;
    if Loads(s) {
      PagesBarred(m, file, s, FirstPage(s));
    } else {
      NoneBarred(m);
    }
  }

  lemma {:induction false} PagesBarred(m: Memory, file: Bytes, s: Segment, q: int)
    requires q % PAGE == 0
    ensures SomeBarred(m, PagesFrom(file, s, q)) <==> exists p :: p % PAGE == 0 && q <= p < EndPage(s) && Barred(m, p)
    decreases EndPage(s) - q
  {
    hide Barred, EndPage, PageBytes, SomeBarred;
    if q < EndPage(s) {
      var page := Page(q, PageBytes(file, s, q));
      PagesBarred(m, file, s, q + PAGE);
      BarredConcat(m, [page], PagesFrom(file, s, q + PAGE));
      OneBarred(m, page);
    } else {
      NoneBarred(m);
    }
  }

  lemma OneBarred(m: Memory, page: Page)
    ensures SomeBarred(m, [page]) <==> Barred(m, page.vaddr)
  {
    hide Barred;
    assert [page][0] == page;
  }

  /** A program of the first 512 GiB panics exactly if it has a page below 0x1000 or between 1 and 3 GiB. */
  lemma ProgramPanicsIff(k: Kernel<Bytes>, file: Bytes, segments: seq<Segment>)
    requires forall j :: 0 <= j < |segments| ==> EndPage(segments[j]) <= SPACE
    ensures Load(Initial(k), file, segments).Raised? <==>
      exists j, p :: HasPage(segments, j, p) && (p < PAGE || LOW <= p < LOW + 2 * GIGA)
  {
    hide Load, Barred, Initial, EndPage, Loads;
    LoadPanicsIff(Initial(k), file, segments);
    forall j, p | HasPage(segments, j, p)
      ensures Barred(Initial(k), p) <==> p < PAGE || LOW <= p < LOW + 2 * GIGA
    {
      InitialMeans(k, p);
    }
  }

  /** Inside the first 512 GiB the home of an address is its own page. */
  lemma HomeIsPage(s: Segment, v: int)
    requires 0 <= v < SPACE && EndPage(s) <= SPACE
    ensures Owns(s, v) <==> Loads(s) && InPages(s, v / PAGE * PAGE)
    ensures Owns(s, v) ==> Home(s, v) == v / PAGE * PAGE
  {
    hide EndPage;
    var p, q := v / PAGE * PAGE, FirstPage(s);
    if p >= q {
      assert (p - q) % SPACE == p - q;
    } else if q < EndPage(s) {
      assert (p - q) % SPACE == p - q + SPACE;
    }
  }

  /** An address reads as its first owner means it, unless the page underflows. */
  lemma LoadedByte(m: Memory, file: Bytes, segments: seq<Segment>, k: int, a: int)
    requires Load(m, file, segments).Ok? && Mapped(m, a) == None
    requires FirstOwner(segments, ALL, k, a) && NoOverflow(segments[k])
    ensures var p := Home(segments[k], a);
            var page := Mapped(Load(m, file, segments).value.memory, a);
            && page.Some? && |page.value| == PAGE
            && page.value[a % PAGE] == if Underflows(segments[k], p) then 0
                                       else SegmentByte(file, segments[k], p + a % PAGE)
  {
    hide Load, Mapped, PageByte, SegmentByte, Underflows, EndPage;
    var s := segments[k];
    LoadedPage(m, file, segments, k, a);
    HomeInPages(s, a);
    PageByteMeans(file, s, Home(s, a), a % PAGE);
  }

  lemma HomeInPages(s: Segment, v: int)
    requires Owns(s, v)
    ensures InPages(s, Home(s, v))
  {
    hide EndPage;
    var d := v / PAGE - s.vaddr / PAGE;
    ScaledMod(d);
  }

  /** A segment that a table can tell all pages of, without a sum that wraps. */
  predicate Plain(s: Segment) { NoOverflow(s) && s.memsz > 0 && s.vaddr + s.memsz <= SPACE }

  /** The memory of the segment, if it has any, lies elsewhere than the page at `p`. */
  predicate Elsewhere(s: Segment, p: int) {
    !s.isLoad || s.filesz == 0 || s.vaddr + s.memsz <= p || p + 0x1000 <= s.vaddr
  }

  lemma OwnsIff(s: Segment, a: int)
    requires Plain(s) && 0 <= a < SPACE
    ensures Owns(s, a) <==> !Elsewhere(s, a / PAGE * PAGE)
    ensures Owns(s, a) ==> Home(s, a) == a / PAGE * PAGE
  {
    hide Owns, Home, EndPage;
    EndInSpace(s);
    HomeIsPage(s, a);
    PagesAreTheCover(s, a / PAGE * PAGE);
  }

  lemma EndInSpace(s: Segment)
    requires Plain(s)
    ensures EndPage(s) <= SPACE
  {
  }

  /**
   An address of a program reads as the byte of the file that its segment puts there, or as zero behind the file part,
   unless the page is that of an earlier segment or was there before.
   */
  lemma ProgramByte(m: Memory, file: Bytes, segments: seq<Segment>, k: int, a: int)
    requires Load(m, file, segments).Ok? && Mapped(m, a) == None && 0 <= k < |segments|
    requires forall j :: 0 <= j <= k ==> Plain(segments[j])
    requires forall j :: 0 <= j < k ==> Elsewhere(segments[j], a / PAGE * PAGE)
    requires var s := segments[k];
             s.isLoad && s.filesz > 0 && s.vaddr <= a < s.vaddr + s.memsz && s.offset % PAGE == s.vaddr % PAGE
    ensures var s := segments[k];
            var page := Mapped(Load(m, file, segments).value.memory, a);
            var at := s.offset + (a - s.vaddr);
            && page.Some? && |page.value| == 0x1000
            && page.value[a % 0x1000] == if a < s.vaddr + s.filesz && at < |file| then file[at] else 0
  {
    hide Load, Mapped, Owns, Home, Underflows;
    var s, p := segments[k], a / PAGE * PAGE;
    forall j | 0 <= j <= k ensures Owns(segments[j], a) <==> !Elsewhere(segments[j], p) {
      OwnsIff(segments[j], a);
    }
    OwnsIff(s, a);
    assert FirstOwner(segments, ALL, k, a);
    CongruentNeverUnderflows(s, p);
    LoadedByte(m, file, segments, k, a);
    assert p + a % PAGE == a;
  }

  // ----- a page that two segments share -----

  const TEXT_HALF := Segment(true, false, 0, 0x1_0000, 0x800, 0x800)
  const DATA_HALF := Segment(true, true, 0x800, 0x1_0800, 0x800, 0x800)

  lemma Halves(v: int)
    requires 0x1_0000 <= v < 0x1_1000
    ensures Owns(TEXT_HALF, v) && Owns(DATA_HALF, v)
    ensures Home(TEXT_HALF, v) == Home(DATA_HALF, v) == 0x1_0000
    ensures NoOverflow(TEXT_HALF) && !Underflows(TEXT_HALF, 0x1_0000)
    ensures NoOverflow(DATA_HALF) && !Underflows(DATA_HALF, 0x1_0000)
    ensures forall p :: InPages(TEXT_HALF, p) || InPages(DATA_HALF, p) ==> p == 0x1_0000
  {
  }

  /** Text and data in one page, each where the linker put it: the data are not in memory. */
  lemma SharedPageExample(m: Memory, file: Bytes)
    requires |file| >= 0x1000 && !Barred(m, 0x1_0000) && Mapped(m, 0x1_0800) == None
    ensures var r := Load(m, file, [TEXT_HALF, DATA_HALF]);
            && r.Ok? && Mapped(r.value.memory, 0x1_0800).Some?
            && |Mapped(r.value.memory, 0x1_0800).value| == PAGE
            && Mapped(r.value.memory, 0x1_0800).value[0x800] == 0
            && SegmentByte(file, DATA_HALF, 0x1_0800) == file[0x800]
  {
    hide Load, Mapped, Owns, Home, NoOverflow, Underflows, InPages, Barred;
    var segments := [TEXT_HALF, DATA_HALF];
    Halves(0x1_0800);
    LoadPanicsIff(m, file, segments);
    LoadedByte(m, file, segments, 0, 0x1_0800);
  }

  // ----- the child of a fork -----

  /** A fork binds the listed text pages first and then copies of the data pages, into a new initial table. */
  function Fork(m: Memory, image: Image): Result<Memory> { Bind(m, image.text + image.data) }

  /** Binds pages that are listed already. */
  method BindListed(space: AddressSpace<Bytes>, pages: seq<Page>) returns (ok: bool)
    modifies space
    ensures Bind(old(space.table), pages) == if ok then Ok(space.table) else Raised
  {
    hide Create;
    ghost var m := space.table;
    for i := 0 to |pages|
      invariant Bind(m, pages[..i]) == Ok(space.table)
    {
      BindConcat(m, pages[..i], [pages[i]]);
      BindConcat(m, pages[..i + 1], pages[i + 1..]);
      assert pages[..i + 1] == pages[..i] + [pages[i]] && pages == pages[..i + 1] + pages[i + 1..];
      BindOne(space.table, pages[i]);
      ok := space.CreateMapping(pages[i].vaddr, pages[i].bytes, false);
      if !ok {
        return;
      }
    }
    assert pages[..|pages|] == pages;
    ok := true;
  }

  method ForkControl(parent: ElfControl, space: AddressSpace<Bytes>) returns (ok: bool, child: ElfControl)
    requires space != parent.space
    modifies space
    ensures fresh(child) && child.space == space
    ensures Fork(old(space.table), parent.Now()) == if ok then Ok(space.table) else Raised
    ensures ok ==> child.text == parent.text && child.data == parent.data
  {
    hide Bind;
    child := new ElfControl(space);
    BindConcat(space.table, parent.text, parent.data);
    child.text := parent.text;
    ok := BindListed(space, parent.text);
    if ok {
      child.data := parent.data;
      ok := BindListed(space, parent.data);
    }
  }

  /** The child has text pages before data pages, whatever order they were loaded in. */
  lemma ForkedPage(m: Memory, file: Bytes, segments: seq<Segment>, v: int)
    requires Load(m, file, segments).Ok?
    ensures var image := Load(m, file, segments).value;
            && Fork(m, image).Ok?
            && Mapped(Fork(m, image).value, v) ==
               Else(Mapped(m, v), Else(FirstAt(PagesIn(file, segments, {false}), v),
                                       FirstAt(PagesIn(file, segments, {true}), v)))
  {
    hide Load, Bind, Mapped, PagesIn, FirstAt, SomeBarred;
    TextAndData(m, file, segments);
    var text, data := PagesIn(file, segments, {false}), PagesIn(file, segments, {true});
    BindMeans(m, PagesIn(file, segments, ALL), v);
    BindMeans(m, text + data, v);
    FirstAtConcat(text, data, v);
    BarredConcat(m, text, data);
    KindsBarred(m, file, segments);
  }

  lemma {:induction false} KindsBarred(m: Memory, file: Bytes, segments: seq<Segment>)
    ensures SomeBarred(m, PagesIn(file, segments, ALL)) <==>
      SomeBarred(m, PagesIn(file, segments, {false})) || SomeBarred(m, PagesIn(file, segments, {true}))
  {
    hide PagesOf, SomeBarred;
    if segments == [] {
      NoneBarred(m);
    } else {
      var n := |segments| - 1;
      var front, last := segments[..n], PagesOf(file, segments[n]);
      KindsBarred(m, file, front);
      BarredConcat(m, PagesIn(file, front, ALL), last);
      BarredConcat(m, PagesIn(file, front, {segments[n].writable}), last);
    }
  }

  /**
   Parent and child read the same at an address exactly if it was mapped from the start, or its first owner is a
   text segment, or no text segment owns it, or the two pages have the same bytes.
   */
  lemma ForkSeesSameIff(m: Memory, file: Bytes, segments: seq<Segment>, k: int, v: int)
    requires Load(m, file, segments).Ok? && FirstOwner(segments, ALL, k, v)
    ensures var image := Load(m, file, segments).value;
            && Fork(m, image).Ok?
            && (Mapped(Fork(m, image).value, v) == Mapped(image.memory, v) <==>
                  || Mapped(m, v).Some? || !segments[k].writable
                  || forall j :: FirstOwner(segments, {false}, j, v) ==>
                       PageBytes(file, segments[j], Home(segments[j], v))
                       == PageBytes(file, segments[k], Home(segments[k], v)))
  {
    hide Load, Mapped, PagesIn, FirstAt, Owns, Home, PageBytes, Fork;
    ForkedPage(m, file, segments, v);
    LoadedPage(m, file, segments, k, v);
    FirstIsOwners(file, segments, {false}, v);
    FirstIsOwners(file, segments, {true}, v);
    assert FirstOwner(segments, {segments[k].writable}, k, v);
    if !Unowned(segments, {false}, v) {
      var i :| 0 <= i < |segments| && segments[i].writable in {false} && Owns(segments[i], v);
      var j := TheFirst(segments, {false}, i, v);
      forall j' | FirstOwner(segments, {false}, j', v) ensures j' == j {
      }
    }
  }

  /** The data before the text in one page: the parent reads the data, its child the text page's zeros. */
  lemma ForkSwapsExample(m: Memory, file: Bytes)
    requires |file| >= 0x1000 && file[0x800] != 0 && !Barred(m, 0x1_0000) && Mapped(m, 0x1_0800) == None
    ensures var r := Load(m, file, [DATA_HALF, TEXT_HALF]);
            && r.Ok? && Fork(m, r.value).Ok?
            && Mapped(Fork(m, r.value).value, 0x1_0800) != Mapped(r.value.memory, 0x1_0800)
  {
    hide Load, Mapped, Owns, Home, NoOverflow, Underflows, InPages, Barred, PageBytes, Fork, SegmentPage;
    var segments := [DATA_HALF, TEXT_HALF];
    Halves(0x1_0800);
    LoadPanicsIff(m, file, segments);
    ForkSeesSameIff(m, file, segments, 0, 0x1_0800);
    assert FirstOwner(segments, {false}, 1, 0x1_0800);
    HalvesDiffer(file);
  }

  lemma HalvesDiffer(file: Bytes)
    requires |file| >= 0x1000 && file[0x800] != 0
    ensures PageBytes(file, TEXT_HALF, 0x1_0000) != PageBytes(file, DATA_HALF, 0x1_0000)
  {
    hide PageByte, SegmentByte;
    Halves(0x1_0800);
    PageByteMeans(file, TEXT_HALF, 0x1_0000, 0x800);
    PageByteMeans(file, DATA_HALF, 0x1_0000, 0x800);
    HalfBytes(file);
    assert PageBytes(file, TEXT_HALF, 0x1_0000)[0x800] == PageByte(file, TEXT_HALF, 0x1_0000, 0x800);
    assert PageBytes(file, DATA_HALF, 0x1_0000)[0x800] == PageByte(file, DATA_HALF, 0x1_0000, 0x800);
  }

  lemma HalfBytes(file: Bytes)
    requires |file| >= 0x1000
    ensures SegmentByte(file, TEXT_HALF, 0x1_0800) == 0 && SegmentByte(file, DATA_HALF, 0x1_0800) == file[0x800]
  {
  }
}

/** The disk layer over the card and over a memory image: both are a flat array of sectors. */
module Disk {
  import opened Words
  import opened SdCard
  import opened SdTransfers
  import opened SdDriver

  datatype Status = OK | ParameterError

  /** A run of sectors. */
  function Sectors(store: Bytes, sector: int, count: nat): (r: Bytes)
    requires 0 <= sector && SECTOR * (sector + count) <= |store|
    ensures |r| == SECTOR * count
  {
    store[SECTOR * sector..SECTOR * (sector + count)]
  }

  predicate HasSectors(c: Card, sector: int, count: nat) {
    && 0 <= sector && sector + count <= WORD && SECTOR * (sector + count) <= |c.store|
    && (c.standard ==> |c.store| <= WORD)
  }

  lemma SectorsStep(store: Bytes, sector: int, i: nat)
    requires 0 <= sector && SECTOR * (sector + i + 1) <= |store|
    ensures Sectors(store, sector, i) + Block(store, sector + i) == Sectors(store, sector, i + 1)
  {
  }

  lemma SpliceNext(was: Bytes, at: nat, a: Bytes, b: Bytes)
    requires at + |a| + |b| <= |was|
    ensures Splice(Splice(was, at, a), at + |a|, b) == Splice(was, at, a + b)
  {
  }

  lemma SpliceStep(was: Bytes, at: nat, data: Bytes, i: nat)
    requires i < |data| && at + i < |was|
    ensures Splice(was, at, data[..i])[at + i := data[i]] == Splice(was, at, data[..i + 1])
  {
  }

  method ReadFromCard(d: Driver, pdrv: int, buff: array<bv8>, sector: int, count: nat) returns (status: Status)
    requires d.Ready() && AllPrompt(d.bus.paces) && d.sectorSize == SECTOR
    requires HasSectors(d.bus.card, sector, count) && SECTOR * count <= buff.Length
    modifies d.bus, buff
    ensures d.Ready() && Same(old(d.bus.card), d.bus.card)
    ensures pdrv != 0 ==> status == ParameterError && buff[..] == old(buff[..])
    ensures pdrv == 0 ==> status == OK && buff[..] == Splice(old(buff[..]), 0, Sectors(d.bus.card.store, sector, count))
  {
    hide Splice, Block, Sectors, ReadBack;
    if pdrv != 0 {
      return ParameterError;
    }
    ghost var was, c := buff[..], d.bus.card;
    SectorsNone(c.store, sector);
    SpliceNothing(was, 0);
    for i := 0 to count
      invariant d.Ready() && Same(c, d.bus.card)
      invariant buff[..] == Splice(was, 0, Sectors(c.store, sector, i))
    {
      PromptRead(d.bus.paces, d.bus.card, sector + i);
      assert (sector + i) % WORD == sector + i;
      ghost var got := d.ReadSector(buff, d.sectorSize * i, (sector + i) % WORD);
      SectorsStep(c.store, sector, i);
      SpliceNext(was, 0, Sectors(c.store, sector, i), Block(c.store, sector + i));
    }
    status := OK;
  }

  lemma SectorsNone(store: Bytes, sector: int)
    requires 0 <= sector && SECTOR * sector <= |store|
    ensures Sectors(store, sector, 0) == []
  {
  }

  method WriteToCard(d: Driver, pdrv: int, buff: array<bv8>, sector: int, count: nat) returns (status: Status)
    requires d.Ready() && AllPrompt(d.bus.paces) && d.sectorSize == SECTOR
    requires HasSectors(d.bus.card, sector, count) && SECTOR * count <= buff.Length
    modifies d.bus
    ensures d.Ready()
    ensures pdrv != 0 || count == 0 ==> status == ParameterError && Same(old(d.bus.card), d.bus.card)
    ensures pdrv == 0 && count > 0 ==>
      && status == OK
      && var c := old(d.bus.card);
         Same(c.(store := Splice(c.store, SECTOR * sector, buff[..SECTOR * count])), d.bus.card)
  {
    hide Splice, Written;
    if count == 0 || pdrv != 0 {
      return ParameterError;
    }
    ghost var c := d.bus.card;
    SpliceNothing(c.store, SECTOR * sector);
    assert buff[..0] == [];
    for i := 0 to count
      invariant d.Ready() && Same(c.(store := Splice(c.store, SECTOR * sector, buff[..SECTOR * i])), d.bus.card)
    {
      var at := d.sectorSize * i;
      PromptWrite(d.bus.paces, d.bus.card, buff[at..at + SECTOR], sector + i);
      assert (sector + i) % WORD == sector + i;
      d.WriteSector(buff[at..at + SECTOR], (sector + i) % WORD);
      SpliceNext(c.store, SECTOR * sector, buff[..at], buff[at..at + SECTOR]);
      assert buff[..at] + buff[at..at + SECTOR] == buff[..SECTOR * (i + 1)];
    }
    status := OK;
  }

  // ----- the memory image -----

  /** Byte `j` of a sector, with the index in 32 bits. */
  lemma BlockAt(store: Bytes, sector: int, j: nat)
    requires 0 <= sector && SECTOR * (sector + 1) <= |store| <= WORD && j < SECTOR
    ensures (sector * SECTOR + j) % WORD == sector * SECTOR + j < |store|
    ensures Block(store, sector)[j] == store[sector * SECTOR + j]
  {
  }

  method CopySector(image: array<bv8>, buff: array<bv8>, i: nat, sector: int)
    requires image != buff && image.Length <= WORD
    requires 0 <= sector && SECTOR * (sector + 1) <= image.Length && SECTOR * (i + 1) <= buff.Length
    modifies buff
    ensures buff[..] == Splice(old(buff[..]), SECTOR * i, Block(image[..], sector))
  {
    hide Splice, Block;
    ghost var was, block := buff[..], Block(image[..], sector);
    SpliceNothing(was, SECTOR * i);
    assert block[..0] == [];
    for j := 0 to SECTOR
      invariant buff[..] == Splice(was, SECTOR * i, block[..j])
    {
      BlockAt(image[..], sector, j);
      buff[SECTOR * i + j] := image[(sector * SECTOR + j) % WORD];
      SpliceStep(was, SECTOR * i, block, j);
    }
    assert block[..SECTOR] == block;
  }

  method ReadFromImage(image: array<bv8>, pdrv: int, buff: array<bv8>, sector: int, count: nat) returns (status: Status)
    requires image != buff && image.Length <= WORD
    requires 0 <= sector && SECTOR * (sector + count) <= image.Length && SECTOR * count <= buff.Length
    modifies buff
    ensures pdrv != 0 ==> status == ParameterError && buff[..] == old(buff[..])
    ensures pdrv == 0 ==> status == OK && buff[..] == Splice(old(buff[..]), 0, Sectors(image[..], sector, count))
  {
    hide Splice, Block, Sectors;
    if pdrv != 0 {
      return ParameterError;
    }
    ghost var was, store := buff[..], image[..];
    SpliceNothing(was, 0);
    SectorsNone(store, sector);
    for i := 0 to count
      invariant buff[..] == Splice(was, 0, Sectors(store, sector, i))
    {
      CopySector(image, buff, i, sector + i);
      SectorsStep(store, sector, i);
      SpliceNext(was, 0, Sectors(store, sector, i), Block(store, sector + i));
    }
    status := OK;
  }

  method WriteToImage(image: array<bv8>, pdrv: int, buff: array<bv8>, sector: int, count: nat) returns (status: Status)
    requires image != buff && image.Length <= WORD
    requires 0 <= sector && SECTOR * (sector + count) <= image.Length && SECTOR * count <= buff.Length
    modifies image
    ensures pdrv != 0 || count == 0 ==> status == ParameterError && image[..] == old(image[..])
    ensures pdrv == 0 && count > 0 ==>
      status == OK && image[..] == Splice(old(image[..]), SECTOR * sector, buff[..SECTOR * count])
  {
    hide Splice;
    if count == 0 || pdrv != 0 {
      return ParameterError;
    }
    ghost var store, data := image[..], buff[..];
    SpliceNothing(store, SECTOR * sector);
    assert data[..0] == [];
    for i := 0 to count
      invariant image[..] == Splice(store, SECTOR * sector, data[..SECTOR * i])
    {
      for j := 0 to SECTOR
        invariant image[..] == Splice(store, SECTOR * sector, data[..SECTOR * i + j])
      {
        image[((sector + i) * SECTOR + j) % WORD] := buff[SECTOR * i + j];
        SpliceStep(store, SECTOR * sector, data, SECTOR * i + j);
      }
    }
    assert data[..SECTOR * count] == buff[..SECTOR * count];
    status := OK;
  }

  // ----- runs -----

  datatype Request = Read(sector: nat, count: nat) | Write(sector: nat, data: Bytes)

  /** What the caller sees of one request. */
  datatype Reply = Reply(status: Status, bytes: Bytes)

  /** Whole sectors that the disk has. */
  predicate Fits(r: Request, size: nat) {
    match r
    case Read(sector, count) => SECTOR * (sector + count) <= size
    case Write(sector, data) => |data| % SECTOR == 0 && SECTOR * sector + |data| <= size
  }

  predicate AllFit(rs: seq<Request>, size: nat) { forall i :: 0 <= i < |rs| ==> Fits(rs[i], size) }

  function Stored(store: Bytes, r: Request): (t: Bytes)
    requires Fits(r, |store|)
    ensures |t| == |store|
  {
    match r
    case Read(_, _) => store
    case Write(sector, data) => Splice(store, SECTOR * sector, data)
  }

  function Replied(store: Bytes, r: Request): Reply
    requires Fits(r, |store|)
  {
    match r
    case Read(sector, count) => Reply(OK, Sectors(store, sector, count))
    case Write(_, data) => Reply(if data == [] then ParameterError else OK, [])
  }

  /** The flat array after a run. */
  function After(store: Bytes, rs: seq<Request>): (t: Bytes)
    requires AllFit(rs, |store|)
    ensures |t| == |store|
  {
    if rs == [] then store else Stored(After(store, rs[..|rs| - 1]), rs[|rs| - 1])
  }

  /** The replies of a run on the flat array. */
  function Replies(store: Bytes, rs: seq<Request>): seq<Reply>
    requires AllFit(rs, |store|)
  {
    if rs == [] then []
    else
      var n := |rs| - 1;
      Replies(store, rs[..n]) + [Replied(After(store, rs[..n]), rs[n])]
  }

  /** The data of a sector after a run: that of the last write that covers it, or what it was. */
  function LastWritten(store: Bytes, rs: seq<Request>, s: nat): Bytes
    requires AllFit(rs, |store|) && SECTOR * (s + 1) <= |store|
  {
    if rs == [] then Block(store, s)
    else
      var n := |rs| - 1;
      match rs[n]
      case Read(_, _) => LastWritten(store, rs[..n], s)
      case Write(sector, data) =>
        if sector <= s < sector + |data| / SECTOR then data[SECTOR * (s - sector)..SECTOR * (s - sector + 1)]
        else LastWritten(store, rs[..n], s)
  }

  lemma BlockOfSplice(store: Bytes, sector: nat, data: Bytes, s: nat)
    requires |data| % SECTOR == 0 && SECTOR * sector + |data| <= |store| && SECTOR * (s + 1) <= |store|
    ensures Block(Splice(store, SECTOR * sector, data), s)
            == if sector <= s < sector + |data| / SECTOR then data[SECTOR * (s - sector)..SECTOR * (s - sector + 1)]
               else Block(store, s)
  {
  }

  lemma {:induction false} SectorHoldsLastWrite(store: Bytes, rs: seq<Request>, s: nat)
    requires AllFit(rs, |store|) && SECTOR * (s + 1) <= |store|
    ensures Block(After(store, rs), s) == LastWritten(store, rs, s)
  {
    hide Splice, Block;
    if rs != [] {
      var n := |rs| - 1;
      SectorHoldsLastWrite(store, rs[..n], s);
      if rs[n].Write? {
        BlockOfSplice(After(store, rs[..n]), rs[n].sector, rs[n].data, s);
      }
    }
  }

  /** A read after any run gives, sector by sector, what was last written there. */
  lemma ReadSeesLastWrites(store: Bytes, rs: seq<Request>, sector: nat, count: nat, i: nat)
    requires AllFit(rs, |store|) && 512 * (sector + count) <= |store| && i < count
    ensures var reply := Replied(After(store, rs), Read(sector, count));
            && reply.status == OK && |reply.bytes| == 512 * count
            && reply.bytes[512 * i..512 * i + 512] == LastWritten(store, rs, sector + i)
  {
    hide After, LastWritten;
    SectorHoldsLastWrite(store, rs, sector + i);
    var bytes := Sectors(After(store, rs), sector, count);
    assert bytes[512 * i..512 * i + 512] == Block(After(store, rs), sector + i);
  }

  /** Every sector of the card has an address. */
  predicate Addressable(c: Card) { |c.store| <= if c.standard then WORD else SECTOR * WORD }

  /** One request on the card. */
  method RequestOnCard(d: Driver, r: Request) returns (reply: Reply)
    requires d.Ready() && AllPrompt(d.bus.paces) && d.sectorSize == SECTOR
    requires Fits(r, |d.bus.card.store|) && Addressable(d.bus.card)
    modifies d.bus
    ensures d.Ready() && d.bus.card.store == Stored(old(d.bus.card.store), r) && Addressable(d.bus.card)
    ensures reply == Replied(old(d.bus.card.store), r)
  {
    hide Splice;
    match r {
      case Read(sector, count) => {
        var buff := new bv8[SECTOR * count];
        ghost var blank := buff[..];
        var status := ReadFromCard(d, 0, buff, sector, count);
        SpliceAll(blank, Sectors(d.bus.card.store, sector, count));
        reply := Reply(status, buff[..]);
      }
      case Write(sector, data) => {
        var buff := new bv8[|data|](i requires 0 <= i < |data| => data[i]);
        assert buff[..] == data;
        var status := WriteToCard(d, 0, buff, sector, |data| / SECTOR);
        SpliceNothing(old(d.bus.card.store), SECTOR * sector);
        assert buff[..|data|] == data;
        reply := Reply(status, []);
      }
    }
  }

  /** One request on the image. */
  method RequestOnImage(image: array<bv8>, r: Request) returns (reply: Reply)
    requires image.Length <= WORD && Fits(r, image.Length)
    modifies image
    ensures image[..] == Stored(old(image[..]), r)
    ensures reply == Replied(old(image[..]), r)
  {
    hide Splice;
    match r {
      case Read(sector, count) => {
        var buff := new bv8[SECTOR * count];
        ghost var blank := buff[..];
        var status := ReadFromImage(image, 0, buff, sector, count);
        SpliceAll(blank, Sectors(image[..], sector, count));
        reply := Reply(status, buff[..]);
      }
      case Write(sector, data) => {
        var buff := new bv8[|data|](i requires 0 <= i < |data| => data[i]);
        assert buff[..] == data;
        var status := WriteToImage(image, 0, buff, sector, |data| / SECTOR);
        SpliceNothing(old(image[..]), SECTOR * sector);
        assert buff[..|data|] == data;
        reply := Reply(status, []);
      }
    }
  }

  /** Any run on a card of any size. */
  method RunOnCard(d: Driver, rs: seq<Request>) returns (replies: seq<Reply>)
    requires d.Ready() && AllPrompt(d.bus.paces) && d.sectorSize == SECTOR
    requires Addressable(d.bus.card) && AllFit(rs, |d.bus.card.store|)
    modifies d.bus
    ensures d.Ready() && replies == Replies(old(d.bus.card.store), rs)
    ensures d.bus.card.store == After(old(d.bus.card.store), rs)
  {
    hide Stored, Replied, Fits, Addressable;
    ghost var store := d.bus.card.store;
    replies := [];
    for i := 0 to |rs|
      invariant d.Ready() && Addressable(d.bus.card) && d.bus.card.store == After(store, rs[..i])
      invariant replies == Replies(store, rs[..i])
    {
      assert rs[..i + 1][..i] == rs[..i];
      var reply := RequestOnCard(d, rs[i]);
      replies := replies + [reply];
    }
    assert rs[..|rs|] == rs;
  }

  /** Any run on the card and on an image of it: the same replies, and the same contents. */
  method RunBoth(d: Driver, image: array<bv8>, rs: seq<Request>) returns (onCard: seq<Reply>, onImage: seq<Reply>)
    requires d.Ready() && AllPrompt(d.bus.paces) && d.sectorSize == SECTOR
    requires image.Length <= WORD
    requires image[..] == d.bus.card.store && AllFit(rs, image.Length)
    modifies d.bus, image
    ensures d.Ready() && onCard == onImage == Replies(old(image[..]), rs)
    ensures image[..] == d.bus.card.store == After(old(image[..]), rs)
  {
    hide Stored, Replied, Fits;
    ghost var store := image[..];
    onCard, onImage := [], [];
    for i := 0 to |rs|
      invariant d.Ready() && image[..] == d.bus.card.store == After(store, rs[..i])
      invariant onCard == onImage == Replies(store, rs[..i])
    {
      assert rs[..i + 1][..i] == rs[..i];
      var a := RequestOnCard(d, rs[i]);
      var b := RequestOnImage(image, rs[i]);
      onCard, onImage := onCard + [a], onImage + [b];
    }
    assert rs[..|rs|] == rs;
  }
}

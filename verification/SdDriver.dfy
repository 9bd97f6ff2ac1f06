/** The sector driver: commands, tokens and polling loops against the card. */
module SdDriver {
  import opened ByteValues
  import opened Words
  import opened SdCard
  import opened SdTransfers

  /** An answer without an error, in time. */
  predicate Clear(p: Pace) { p.response < RESPONSE_POLLS && Code(p) == 0 }

  /** Of any 254 set-up answers in a row, one is without an error. */
  ghost predicate Willing(paces: Paces) { forall n: nat :: WillingFrom(paces, n) }

  ghost predicate WillingFrom(paces: Paces, n: nat) { SomeZero(paces, n, n + 0xfe) }

  ghost predicate SomeZero(paces: Paces, from: nat, until: nat) {
    exists k: nat :: from <= k < until && Clear(paces(k))
  }

  /** Of 255 answers one is without an error, and of the 254 after the first such one, another is. */
  ghost predicate ClearTwice(paces: Paces, from: nat) {
    exists k: nat :: FirstClear(paces, from, k) && k < from + 0xff && SomeZero(paces, k + 1, k + 0xff)
  }

  ghost predicate FirstClear(paces: Paces, from: nat, k: nat) {
    from <= k && Clear(paces(k)) && !SomeZero(paces, from, k)
  }

  /** The bus: every byte written or read moves the card on. */
  class Bus {
    const paces: Paces
    var card: Card

    constructor (paces: Paces, card: Card)
      ensures this.paces == paces && this.card == card
    {
      this.paces := paces;
      this.card := card;
    }

    method WriteData(data: Bytes)
      modifies this
      ensures card == Inputs(paces, old(card), data)
    {
      hide Input;
      ghost var c := card;
      for i := 0 to |data|
        invariant card == Inputs(paces, c, data[..i])
      {
        InputsStep(paces, c, data[..i], data[i]);
        assert data[..i + 1] == data[..i] + [data[i]];
        card := Input(paces, card, data[i]);
      }
      assert data[..|data|] == data;
    }

    /** The controller sends ones while it reads. */
    method ReadByte() returns (b: bv8)
      modifies this
      ensures b == Shown(old(card)) && card == Input(paces, old(card), 0xff)
    {
      b := Shown(card);
      card := Input(paces, card, 0xff);
    }

    /** Reads into part of a buffer. */
    method ReadData(buf: array<bv8>, at: nat, n: nat)
      requires at + n <= buf.Length
      modifies this, buf
      ensures buf[..] == Splice(old(buf[..]), at, ReadOut(paces, old(card), n))
      ensures card == Polled(paces, old(card), n)
    {
      hide Input, Shown, Splice;
      ghost var c, was := card, buf[..];
      SpliceNothing(was, at);
      for i := 0 to n
        invariant card == Polled(paces, c, i)
        invariant buf[..] == Splice(was, at, ReadOut(paces, c, i))
      {
        var b := ReadByte();
        buf[at + i] := b;
        SpliceOne(was, at, ReadOut(paces, c, i), b);
      }
    }

    method SendCommand(cmd: bv8, arg: int, crc: bv8)
      modifies this
      ensures card == Inputs(paces, old(card), Frame(cmd, arg, crc))
    {
      WriteData(Frame(cmd, arg, crc));
    }

    method EndCommand()
      modifies this
      ensures card == Deselect(old(card))
    {
      card := Deselect(card);
    }

    /** Polls for a response other than silence, at most 255 times. */
    method Response() returns (result: bv8, ghost polls: nat)
      modifies this
      ensures Stops(paces, old(card), polls, RESPONSE_POLLS, IsAnswer) && polls > 0
      ensures card == Polled(paces, old(card), polls) && result == Show(paces, old(card), polls - 1)
    {
      hide Input, Shown;
      ghost var c := card;
      polls := 0;
      var timeout := RESPONSE_POLLS;
      result := 0xff;
      while timeout != 0
        invariant 0 <= timeout && timeout == RESPONSE_POLLS - polls && card == Polled(paces, c, polls)
        invariant forall k: nat :: k < polls ==> !IsAnswer(Show(paces, c, k))
        decreases timeout
      {
        timeout := timeout - 1;
        result := ReadByte();
        polls := polls + 1;
        if result != 0xff {
          return;
        }
      }
      assert !IsAnswer(Show(paces, c, polls - 1));
      result := 0xff;
    }

    /** Polls for the start token of a data block, up to the limit. */
    method AwaitToken() returns (ghost polls: nat)
      modifies this
      ensures Stops(paces, old(card), polls, TOKEN_POLLS, IsToken) && card == Polled(paces, old(card), polls)
    {
      hide Input, Shown;
      ghost var c := card;
      polls := 0;
      var timeout := TOKEN_POLLS;
      while timeout != 0
        invariant 0 <= timeout && timeout == TOKEN_POLLS - polls && card == Polled(paces, c, polls)
        invariant forall k: nat :: k < polls ==> !IsToken(Show(paces, c, k))
        decreases timeout
      {
        var result := ReadByte();
        polls := polls + 1;
        if result == 0xfe {
          break;
        }
        timeout := timeout - 1;
      }
    }

    /** Polls until the card accepts a data block, up to the limit. */
    method AwaitAccepted() returns (ghost polls: nat)
      modifies this
      ensures Stops(paces, old(card), polls, ACCEPT_POLLS, IsAccepted) && card == Polled(paces, old(card), polls)
    {
      hide Input, Shown;
      ghost var c := card;
      polls := 0;
      var timeout := ACCEPT_POLLS;
      while timeout != 0
        invariant 0 <= timeout && timeout == ACCEPT_POLLS - polls && card == Polled(paces, c, polls)
        invariant forall k: nat :: k < polls ==> !IsAccepted(Show(paces, c, k))
        decreases timeout
      {
        var result := ReadByte();
        polls := polls + 1;
        if result & 0x1f == 0x05 {
          break;
        }
        timeout := timeout - 1;
      }
    }

    /** Polls until the card is no longer busy, up to the limit. */
    method AwaitReady() returns (ghost polls: nat)
      modifies this
      ensures Stops(paces, old(card), polls, BUSY_POLLS, IsDone) && card == Polled(paces, old(card), polls)
    {
      hide Input, Shown;
      ghost var c := card;
      polls := 0;
      var timeout := BUSY_POLLS;
      while timeout != 0
        invariant 0 <= timeout && timeout == BUSY_POLLS - polls && card == Polled(paces, c, polls)
        invariant forall k: nat :: k < polls ==> !IsDone(Show(paces, c, k))
        decreases timeout
      {
        var result := ReadByte();
        polls := polls + 1;
        if result != 0 {
          break;
        }
        timeout := timeout - 1;
      }
    }

    /** Writes token, data and two checksum bytes. */
    method WriteBlock(data: Bytes)
      modifies this
      ensures card == Inputs(paces, old(card), Sending(data))
    {
      hide Inputs;
      ghost var c := card;
      WriteData([0xfe]);
      WriteData(data);
      WriteData([0xff, 0xff]);
      InputsJoin(paces, c, [0xfe], data);
      InputsJoin(paces, c, [0xfe] + data, [0xff, 0xff]);
    }
  }

  lemma SpliceNothing(was: Bytes, at: nat)
    requires at <= |was|
    ensures Splice(was, at, []) == was
  {
  }

  lemma SpliceOne(was: Bytes, at: nat, data: Bytes, b: bv8)
    requires at + |data| < |was|
    ensures Splice(was, at, data)[at + |data| := b] == Splice(was, at, data + [b])
  {
  }

  /** One answer later. */
  function Next(c: Card): Card { c.(served := c.served + 1) }

  /** Nothing but the count of answers differs. */
  ghost predicate Same(c: Card, d: Card) { d == c.(served := d.served) }

  /** The answer to a set-up command, taken and read on: a card at rest is at rest again. */
  lemma SetupMeans(paces: Paces, c: Card, cmd: bv8, arg: int, rest: Bytes, polls: nat, n: nat)
    requires AtRest(c) && 0 <= arg < WORD && n <= |rest|
    requires (cmd == 58 && rest == Conditions(c)) || (cmd == 16 && arg == SECTOR && rest == [])
    requires Stops(paces, Inputs(paces, c, Frame(cmd, arg, 0)), polls, RESPONSE_POLLS, IsAnswer)
    ensures var d := Inputs(paces, c, Frame(cmd, arg, 0));
            var e := Polled(paces, d, polls);
            && polls > 0
            && (Show(paces, d, polls - 1) == 0 <==> Clear(paces(c.served)))
            && (Clear(paces(c.served)) ==> ReadOut(paces, e, n) == rest[..n])
            && Deselect(Polled(paces, e, n)) == Next(c)
  {
    hide Polled, Stops, Inputs, Frame, Show, ReadOut, Silence, Code;
    var p := paces(c.served);
    NotSilent(p);
    FrameExecutes(paces, c, cmd, arg, 0);
    var d := Inputs(paces, c, Frame(cmd, arg, 0));
    assert Silence(p.response) + [Code(p)] + [] == Silence(p.response) + [Code(p)];
    assert d == Next(c).(out := Silence(p.response) + [Code(p)] + rest);
    ResponseTaken(paces, d, p.response, Code(p), rest, polls);
    var e := d.(out := Owed(p.response, Code(p)) + rest);
    QuietPolled(paces, e, n);
    if Clear(p) {
      assert [] + rest == rest;
      ReadsWhatIsSent(paces, e, rest[..n]);
    }
  }

  lemma NotSilent(p: Pace)
    ensures Code(p) != 0xff
  {
  }

  /** The driver's own state: the kind of card, and the sizes its file system names. */
  class Driver {
    const bus: Bus
    var isStandard: bool
    var sectorSize: int
    var blockSize: int

    constructor (bus: Bus)
      ensures this.bus == bus && !isStandard
    {
      this.bus := bus;
      isStandard, sectorSize, blockSize := false, 0, 0;
    }

    /** The driver knows the card, which waits for a command, though it may still be busy. */
    ghost predicate Knows()
      reads this, bus
    {
      Waiting(bus.card) && isStandard == bus.card.standard
    }

    /** The driver knows the card, and the card listens. */
    ghost predicate Ready()
      reads this, bus
    {
      Knows() && bus.card.busy == 0
    }

    /** Asks the card for its operating conditions. */
    method ReadConditions() returns (result: bv8, ocr0: bv8)
      requires AtRest(bus.card)
      modifies bus
      ensures result == 0 <==> Clear(bus.paces(old(bus.card).served))
      ensures result == 0 ==> ocr0 == Conditions(old(bus.card))[0]
      ensures bus.card == Next(old(bus.card))
    {
      hide Clear, Inputs, Polled, Show, Stops, ReadOut, Frame;
      ghost var c, polls := bus.card, 0;
      bus.SendCommand(58, 0, 0);
      result, polls := bus.Response();
      SetupMeans(bus.paces, c, 58, 0, Conditions(c), polls, 4);
      var ocr := new bv8[4];
      ghost var blank, got := ocr[..], ReadOut(bus.paces, bus.card, 4);
      bus.ReadData(ocr, 0, 4);
      SpliceAll(blank, got);
      bus.EndCommand();
      ocr0 := ocr[0];
      assert ocr0 == ocr[..][0];
    }

    method SetBlockLength() returns (result: bv8)
      requires AtRest(bus.card)
      modifies bus
      ensures result == 0 <==> Clear(bus.paces(old(bus.card).served))
      ensures bus.card == Next(old(bus.card))
    {
      hide Clear, Inputs, Show, Stops, Frame;
      ghost var c, polls := bus.card, 0;
      bus.SendCommand(16, SECTOR, 0);
      result, polls := bus.Response();
      SetupMeans(bus.paces, c, 16, SECTOR, [], polls, 0);
      bus.EndCommand();
    }

    /** Sets the block length, at most 254 times. */
    method ForceBlockLength() returns (ok: bool)
      requires AtRest(bus.card)
      modifies bus
      ensures Same(old(bus.card), bus.card)
      ensures ok <==> SomeZero(bus.paces, old(bus.card).served, old(bus.card).served + 0xfe)
    {
      hide Conditions, Clear;
      ghost var c := bus.card;
      var timeout := 0xff - 1;
      while timeout != 0
        invariant 0 <= timeout <= 0xfe && Same(c, bus.card) && bus.card.served == c.served + 0xfe - timeout
        invariant !SomeZero(bus.paces, c.served, bus.card.served)
        decreases timeout
      {
        var result := SetBlockLength();
        if result == 0 {
          assert Clear(bus.paces(bus.card.served - 1));
          break;
        }
        timeout := timeout - 1;
      }
      ok := timeout != 0;
    }

    /** Finds out how the card is addressed, and sets the block length of a byte-addressed one. */
    method CheckBlockSize() returns (ok: bool)
      requires AtRest(bus.card)
      modifies `isStandard, bus
      ensures Same(old(bus.card), bus.card)
      ensures ok ==> Ready()
      ensures Willing(bus.paces) ==> ok
      ensures ok <==> if old(bus.card).standard then ClearTwice(bus.paces, old(bus.card).served)
                      else SomeZero(bus.paces, old(bus.card).served, old(bus.card).served + 0xff)
    {
      hide Clear;
      ghost var c := bus.card;
      var timeout := 0xff;
      while timeout != 0
        invariant 0 <= timeout <= 0xff && Same(c, bus.card) && bus.card.served == c.served + 0xff - timeout
        invariant !SomeZero(bus.paces, c.served, bus.card.served)
        decreases timeout
      {
        timeout := timeout - 1;
        var result, ocr0 := ReadConditions();
        if result == 0 {
          assert Clear(bus.paces(bus.card.served - 1));
          if ocr0 & 0x40 != 0 {
            isStandard := false;
          } else {
            assert Willing(bus.paces) ==> WillingFrom(bus.paces, bus.card.served);
            FirstClearOnly(bus.paces, c.served, bus.card.served - 1);
            ok := ForceBlockLength();
            if !ok {
              return;
            }
            isStandard := true;
          }
          return true;
        }
      }
      assert Willing(bus.paces) ==> WillingFrom(bus.paces, c.served);
      ok := false;
    }

    /**
     Reads one sector into part of a buffer. Nothing is stored, and what comes into the buffer is known for
     a card that listens, and for one that is busy while the command is sent.
     */
    method ReadSector(buf: array<bv8>, at: nat, sector: int) returns (ghost got: Bytes)
      requires Knows() && HasSector(bus.card, sector) && at + SECTOR <= buf.Length
      modifies bus, buf
      ensures Knows() && bus.card.store == old(bus.card).store && bus.card.standard == old(bus.card).standard
      ensures |got| == SECTOR && buf[..] == Splice(old(buf[..]), at, got)
      ensures old(bus.card).busy == 0 || old(bus.card).busy >= 6 ==>
        got == ReadBack(bus.paces, old(bus.card), sector) && bus.card == AfterRead(old(bus.card))
    {
      hide Inputs, Polled, Show, Stops, ReadOut, Frame, Splice, ReadBack, AfterRead, Address;
      ghost var c, n, m := bus.card, 0, 0;
      var result;
      bus.SendCommand(17, Address(isStandard, sector), 0);
      result, n := bus.Response();
      m := bus.AwaitToken();
      got := ReadOut(bus.paces, bus.card, SECTOR);
      bus.ReadData(buf, at, SECTOR);
      var crc := new bv8[2];
      bus.ReadData(crc, 0, 2);
      bus.EndCommand();
      if c.busy == 0 || c.busy >= 6 {
        ReadMeans(bus.paces, c, sector, n, m);
        ReadKeeps(c);
      } else {
        PartlyHeardRead(bus.paces, c, 17, Address(c.standard, sector), n, m);
      }
    }

    /** Writes one sector, then asks for the status; no outcome is reported. */
    method WriteSector(data: Bytes, sector: int)
      requires Knows() && HasSector(bus.card, sector) && |data| == SECTOR
      modifies bus
      ensures Knows() && |bus.card.store| == |old(bus.card).store| && bus.card.standard == old(bus.card).standard
      ensures old(bus.card).busy == 0 || old(bus.card).busy >= DEAF ==>
        bus.card == Written(bus.paces, old(bus.card), data, sector)
    {
      hide Inputs, Polled, Show, Stops, Frame, Written, Address, Sending;
      ghost var c, n, m, l := bus.card, 0, 0, 0;
      var result;
      bus.SendCommand(24, Address(isStandard, sector), 0);
      result, n := bus.Response();
      bus.WriteBlock(data);
      m := bus.AwaitAccepted();
      l := bus.AwaitReady();
      bus.EndCommand();
      WriteKeeps(bus.paces, c, Frame(24, Address(c.standard, sector), 0), n, Sending(data), m, l);
      if c.busy == 0 || c.busy >= DEAF {
        WriteMeans(bus.paces, c, sector, data, n, m, l);
      }
      var ok := CheckStatus();
    }

    /** Asks for the status; only the message printed depends on it. */
    method CheckStatus() returns (ok: bool)
      requires Waiting(bus.card)
      modifies bus
      ensures bus.card == AfterStatus(old(bus.card)) && (ok <==> SeemsClean(bus.paces, old(bus.card)))
    {
      hide Inputs, Polled, Show, Stops, Frame, Shown, SeemsClean, AfterStatus;
      ghost var c, polls := bus.card, 0;
      var result;
      bus.SendCommand(13, 0, 0);
      result, polls := bus.Response();
      StatusMeans(bus.paces, c, polls);
      var error := bus.ReadByte();
      bus.EndCommand();
      ok := result == 0 && error == 0;
    }

    /** The last steps of the initialisation: the kind of card, then the sizes that the boot sector names. */
    method Initialize() returns (ok: bool)
      requires AtRest(bus.card) && HasSector(bus.card, 0)
      modifies this, bus
      ensures Same(old(bus.card), bus.card)
      ensures ok ==> Ready()
      ensures ok && AllPrompt(bus.paces) ==>
        var boot := Block(old(bus.card).store, 0);
        sectorSize == Unpack(boot[11..13]) && blockSize == Value(boot[13]) * sectorSize
      ensures Willing(bus.paces) ==> ok
    {
      hide Splice, Block, Value, Unpack, Delivered;
      ok := CheckBlockSize();
      if !ok {
        return;
      }
      var buf := new bv8[SECTOR];
      ghost var blank := buf[..];
      PromptRead(bus.paces, bus.card, 0);
      ghost var got := ReadSector(buf, 0, 0);
      SpliceAll(blank, got);
      assert buf[11..13] == buf[..][11..13] && buf[13] == buf[..][13];
      sectorSize := Unpack(buf[11..13]);
      blockSize := Value(buf[13]) * sectorSize;
    }
  }

  /** Once the first clear answer is there, only the answers after it decide. */
  lemma FirstClearOnly(paces: Paces, from: nat, k: nat)
    requires FirstClear(paces, from, k) && k < from + 0xff
    ensures ClearTwice(paces, from) <==> SomeZero(paces, k + 1, k + 0xff)
  {
    hide Clear;
    if ClearTwice(paces, from) {
      var j: nat :| FirstClear(paces, from, j) && j < from + 0xff && SomeZero(paces, j + 1, j + 0xff);
      assert j == k;
    }
  }

  /** A card in time gives the sector. */
  lemma PromptRead(paces: Paces, c: Card, sector: int)
    requires AtRest(c) && HasSector(c, sector)
    ensures AllPrompt(paces) ==> ReadBack(paces, c, sector) == Block(c.store, sector)
  {
    if AllPrompt(paces) {
      assert Prompt(paces(c.served));
    }
  }

  lemma ReadKeeps(c: Card)
    requires Waiting(c)
    ensures Waiting(AfterRead(c)) && AfterRead(c).store == c.store && AfterRead(c).standard == c.standard
  {
  }

  /** A read whose command is heard only in part stores nothing. */
  lemma PartlyHeardRead(paces: Paces, c: Card, cmd: bv8, arg: int, n: nat, m: nat)
    requires Waiting(c) && c.busy > 0
    ensures var d := Polled(paces, Polled(paces, Inputs(paces, c, Frame(cmd, arg, 0)), n), m);
            var e := Deselect(Polled(paces, Polled(paces, d, SECTOR), 2));
            Waiting(e) && e.store == c.store && e.standard == c.standard
  {
    hide Inputs, Polled;
    var d := Inputs(paces, c, Frame(cmd, arg, 0));
    PartOfFrame(paces, c, Frame(cmd, arg, 0));
    PolledJoin(paces, d, n, m);
    PolledJoin(paces, d, n + m, SECTOR);
    PolledJoin(paces, d, n + m + SECTOR, 2);
    ReadingStoresNothing(paces, d, n + m + SECTOR + 2);
    PolledKeeps(paces, d, n + m + SECTOR + 2);
  }

  /** Whatever a card hears of a write, it stays the same kind of card, of the same size. */
  lemma WriteKeeps(paces: Paces, c: Card, frame: Bytes, n: nat, sending: Bytes, m: nat, l: nat)
    requires Waiting(c)
    ensures var d := Inputs(paces, Polled(paces, Inputs(paces, c, frame), n), sending);
            var e := Deselect(Polled(paces, Polled(paces, d, m), l));
            Waiting(e) && |e.store| == |c.store| && e.standard == c.standard
  {
    hide Inputs, Polled;
    var a := Inputs(paces, c, frame);
    var b := Polled(paces, a, n);
    var d := Inputs(paces, b, sending);
    InputsKeep(paces, c, frame);
    PolledKeeps(paces, a, n);
    InputsKeep(paces, b, sending);
    PolledKeeps(paces, d, m);
    PolledKeeps(paces, Polled(paces, d, m), l);
  }

  lemma SpliceAll(was: Bytes, data: Bytes)
    requires |was| == |data|
    ensures Splice(was, 0, data) == data
  {
  }
}

/**
 What a read, a write and a status request do to a card, for every delay: the polling loops in closed
 form, and when a transfer is right.
 */
module SdTransfers {
  import opened Arithmetic
  import opened Sequences
  import opened Words
  import opened SdCard

  const RESPONSE_POLLS := 0xff
  const TOKEN_POLLS := 0xffffff - 1
  const ACCEPT_POLLS := 0xfff - 1
  const BUSY_POLLS := 0xffffff - 1

  /** Command, one poll, token, block and checksum: a card that is busy for so long hears nothing of a write. */
  const DEAF := 6 + 1 + SECTOR + 3

  /** Every polling loop sees what it waits for. */
  predicate Prompt(p: Pace) {
    p.response < RESPONSE_POLLS && p.token < TOKEN_POLLS && p.accepted < ACCEPT_POLLS && p.busy < BUSY_POLLS
  }

  ghost predicate AllPrompt(paces: Paces) { forall n: nat :: Prompt(paces(n)) }

  function Block(store: Bytes, sector: int): (r: Bytes)
    requires 0 <= sector && SECTOR * (sector + 1) <= |store|
    ensures |r| == SECTOR
  {
    store[SECTOR * sector..SECTOR * (sector + 1)]
  }

  /** The argument that names a sector. */
  function Address(standard: bool, sector: int): int {
    (if standard then sector * SECTOR else sector) % WORD
  }

  /** The card has the sector, and its address fits the argument. */
  predicate HasSector(c: Card, sector: int) {
    0 <= sector < WORD && SECTOR * (sector + 1) <= |c.store| && (c.standard ==> |c.store| <= WORD)
  }

  lemma SectorBlock(c: Card, sector: int)
    requires HasSector(c, sector)
    ensures HasBlock(c, Address(c.standard, sector)) && BlockStart(c, Address(c.standard, sector)) == SECTOR * sector
    ensures 0 <= Address(c.standard, sector) < WORD
  {
  }

  // ----- polling -----

  predicate IsAnswer(b: bv8) { b != 0xff }

  predicate IsToken(b: bv8) { b == 0xfe }

  predicate IsAccepted(b: bv8) { b & 0x1f == 0x05 }

  predicate IsDone(b: bv8) { b != 0 }

  /** A loop that reads until it sees a byte it wants, or gives up, reads `polls` bytes. */
  ghost predicate Stops(paces: Paces, c: Card, polls: nat, limit: nat, wanted: bv8 -> bool) {
    && polls <= limit
    && (forall k: nat :: k + 1 < polls ==> !wanted(Show(paces, c, k)))
    && (polls < limit ==> polls > 0 && wanted(Show(paces, c, polls - 1)))
  }

  /** If the first wanted byte is number `n`, it is the last one read, or the loop gives up before it. */
  lemma StopsAt(paces: Paces, c: Card, polls: nat, limit: nat, wanted: bv8 -> bool, n: nat)
    requires Stops(paces, c, polls, limit, wanted)
    requires forall k: nat :: k < n ==> !wanted(Show(paces, c, k))
    requires n < limit ==> wanted(Show(paces, c, n))
    ensures polls == if n < limit then n + 1 else limit
  {
    hide Show;
  }

  /** On a card that stays quiet: the wait for the first byte of what it sends that is wanted. */
  lemma QuietStops(paces: Paces, c: Card, polls: nat, limit: nat, wanted: bv8 -> bool, n: nat)
    requires Quiet(c) && n < |c.out| && Stops(paces, c, polls, limit, wanted)
    requires wanted(c.out[n]) && forall k :: 0 <= k < n ==> !wanted(c.out[k])
    ensures polls == if n < limit then n + 1 else limit
  {
    hide Show, Stops;
    forall k: nat | k <= n ensures Show(paces, c, k) == c.out[k] {
      QuietShow(paces, c, k);
    }
    StopsAt(paces, c, polls, limit, wanted, n);
  }

  /** On a quiet card that shows no wanted byte the loop gives up. */
  lemma QuietGivesUp(paces: Paces, c: Card, polls: nat, limit: nat, wanted: bv8 -> bool)
    requires Quiet(c) && Stops(paces, c, polls, limit, wanted)
    requires !wanted(0) && !wanted(0xff) && forall k :: 0 <= k < |c.out| ==> !wanted(c.out[k])
    ensures polls == limit
  {
    hide Show, Stops;
    forall k: nat ensures !wanted(Show(paces, c, k)) {
      QuietShow(paces, c, k);
    }
    StopsAt(paces, c, polls, limit, wanted, limit);
  }

  /** The wait for a busy card with nothing else to send. */
  lemma BusyStops(paces: Paces, c: Card, polls: nat, limit: nat)
    requires Quiet(c) && c.out == [] && Stops(paces, c, polls, limit, IsDone)
    ensures polls == if c.busy < limit then c.busy + 1 else limit
  {
    hide Show, Stops;
    forall k: nat | k <= c.busy ensures Show(paces, c, k) == if k < c.busy then 0 else 0xff {
      QuietShow(paces, c, k);
    }
    StopsAt(paces, c, polls, limit, IsDone, c.busy);
  }

  /** The bytes of the answer to a command that are still to come when the driver has polled for it. */
  function Owed(wait: nat, code: bv8): Bytes {
    if wait < RESPONSE_POLLS then [] else Silence(wait - RESPONSE_POLLS) + [code]
  }

  /** Polling for a response: a timely one is taken, and of a late one the rest stays to come. */
  lemma ResponseTaken(paces: Paces, c: Card, wait: nat, code: bv8, rest: Bytes, polls: nat)
    requires Quiet(c) && c.out == Silence(wait) + [code] + rest && code != 0xff
    requires Stops(paces, c, polls, RESPONSE_POLLS, IsAnswer)
    ensures polls > 0 && Show(paces, c, polls - 1) == if wait < RESPONSE_POLLS then code else 0xff
    ensures Polled(paces, c, polls) == c.(out := Owed(wait, code) + rest)
  {
    hide Polled, Stops, Show;
    QuietStops(paces, c, polls, RESPONSE_POLLS, IsAnswer, wait);
    QuietPolled(paces, c, polls);
    QuietShow(paces, c, polls - 1);
    OwedPart(wait, code, rest);
  }

  lemma OwedPart(wait: nat, code: bv8, rest: Bytes)
    ensures (Silence(wait) + [code] + rest)[if wait < RESPONSE_POLLS then wait + 1 else RESPONSE_POLLS..]
            == Owed(wait, code) + rest
  {
  }

  // ----- reads -----

  /** What comes before the start token when the response has been polled for. */
  function Lead(p: Pace): Bytes { Owed(p.response, 0) + Silence(p.token) }

  /** The token comes in time; a late response is made up for by the longer wait for the token. */
  predicate InTime(p: Pace) { |Lead(p)| < TOKEN_POLLS }

  /** Of the delays alone: 255 polls for the response, and what it is late by off the polls for the token. */
  lemma InTimeIff(p: Pace)
    ensures InTime(p) <==> p.token + (if p.response < 0xff then 0 else p.response - 0xfe) < 0xfffffe
  {
  }

  function Sent(p: Pace, block: Bytes): Bytes { Lead(p) + [0xfe] + (block + [p.crc0, p.crc1]) }

  /** The bytes a read puts into the buffer: the block if it comes in time, else what comes when the driver gives up. */
  function Delivered(p: Pace, block: Bytes): (r: Bytes)
    requires |block| == SECTOR
    ensures |r| == SECTOR
  {
    if InTime(p) then block else Sent(p, block)[TOKEN_POLLS..][..SECTOR]
  }

  /** Byte `k` of the one block that a late card seems to deliver: the end of the wait and the token, over and over. */
  function EchoAt(p: Pace, k: nat): bv8
    requires !InTime(p)
  {
    var late := |Lead(p)| - TOKEN_POLLS;
    if k < late then Lead(p)[TOKEN_POLLS + k] else if k == late then 0xfe else EchoAt(p, k - late - 1)
  }

  function Echo(p: Pace): Bytes
    requires !InTime(p)
  {
    seq(SECTOR, k requires 0 <= k < SECTOR => EchoAt(p, k))
  }

  /** What is read is the block exactly if it comes in time, or is the one echo of the wait for it. */
  lemma DeliveredIff(p: Pace, block: Bytes)
    requires |block| == SECTOR
    ensures Delivered(p, block) == block <==> InTime(p) || block == Echo(p)
  {
    hide Lead;
    if !InTime(p) {
      if Delivered(p, block) == block {
        forall k | 0 <= k < SECTOR ensures block[k] == Echo(p)[k] {
          EchoOnly(p, block, k);
        }
      }
      if block == Echo(p) {
        forall k | 0 <= k < SECTOR ensures Delivered(p, block)[k] == block[k] {
          DeliveredAt(p, block, k);
        }
      }
    }
  }

  lemma DeliveredAt(p: Pace, block: Bytes, k: nat)
    requires |block| == SECTOR && !InTime(p) && k < SECTOR
    ensures var late := |Lead(p)| - TOKEN_POLLS;
            Delivered(p, block)[k] == if k < late then Lead(p)[TOKEN_POLLS + k] else if k == late then 0xfe
                                      else block[k - late - 1]
  {
    hide Lead;
    assert Delivered(p, block)[k] == Sent(p, block)[TOKEN_POLLS + k];
  }

  lemma {:induction false} EchoOnly(p: Pace, block: Bytes, k: nat)
    requires |block| == SECTOR && !InTime(p) && k < SECTOR && Delivered(p, block) == block
    ensures block[k] == EchoAt(p, k)
    decreases k
  {
    hide Lead, Delivered;
    var late := |Lead(p)| - TOKEN_POLLS;
    DeliveredAt(p, block, k);
    if k > late {
      EchoOnly(p, block, k - late - 1);
    }
  }

  /** A token one poll too late, and a sector of zeros: the token is taken for its first byte. */
  lemma LateReadExample()
    ensures var p := Pace(0, TOKEN_POLLS, 0, 0, 0, 0, 0);
            !InTime(p) && Delivered(p, Zeros(SECTOR)) != Zeros(SECTOR)
  {
    hide Delivered;
    var p := Pace(0, TOKEN_POLLS, 0, 0, 0, 0, 0);
    DeliveredAt(p, Zeros(SECTOR), 0);
  }

  /** Half a kilobyte read from a card that does nothing but show that it is busy. */
  function Noise(busy: nat): (r: Bytes)
    ensures |r| == SECTOR
  {
    Zeros(Min(busy, SECTOR)) + Silence(SECTOR - Min(busy, SECTOR))
  }

  /** What a read puts into the buffer. A busy card misses the command. */
  function ReadBack(paces: Paces, c: Card, sector: int): (r: Bytes)
    requires HasSector(c, sector)
    ensures |r| == SECTOR
  {
    if c.busy == 0 then Delivered(paces(c.served), Block(c.store, sector)) else Noise(Less(c.busy, TOKEN_POLLS + 7))
  }

  function AfterRead(c: Card): Card {
    if c.busy == 0 then c.(served := c.served + 1) else c.(busy := Less(c.busy, TOKEN_POLLS + SECTOR + 9))
  }

  /** The steps of a read of a card that hears the command, or is busy for all of it. */
  lemma ReadMeans(paces: Paces, c: Card, sector: int, n: nat, m: nat)
    requires Waiting(c) && HasSector(c, sector) && (c.busy == 0 || c.busy >= 6)
    requires var d := Inputs(paces, c, Frame(17, Address(c.standard, sector), 0));
             Stops(paces, d, n, RESPONSE_POLLS, IsAnswer) && Stops(paces, Polled(paces, d, n), m, TOKEN_POLLS, IsToken)
    ensures var d := Inputs(paces, c, Frame(17, Address(c.standard, sector), 0));
            var e := Polled(paces, Polled(paces, d, n), m);
            && ReadOut(paces, e, SECTOR) == ReadBack(paces, c, sector)
            && Deselect(Polled(paces, Polled(paces, e, SECTOR), 2)) == AfterRead(c)
  {
    hide Polled, Stops, Inputs, Frame, Address, ReadBack, AfterRead, ReadOut;
    if c.busy == 0 {
      HeardRead(paces, c, sector, n, m);
    } else {
      MissedRead(paces, c, sector, n, m);
    }
  }

  lemma HeardRead(paces: Paces, c: Card, sector: int, n: nat, m: nat)
    requires AtRest(c) && HasSector(c, sector)
    requires var d := Inputs(paces, c, Frame(17, Address(c.standard, sector), 0));
             Stops(paces, d, n, RESPONSE_POLLS, IsAnswer) && Stops(paces, Polled(paces, d, n), m, TOKEN_POLLS, IsToken)
    ensures var d := Inputs(paces, c, Frame(17, Address(c.standard, sector), 0));
            var e := Polled(paces, Polled(paces, d, n), m);
            && ReadOut(paces, e, SECTOR) == ReadBack(paces, c, sector)
            && Deselect(Polled(paces, Polled(paces, e, SECTOR), 2)) == AfterRead(c)
  {
    hide Polled, Stops, Inputs, Frame, Address, Silence, Block, Lead, Delivered, ReadOut;
    var p := paces(c.served);
    var block := Block(c.store, sector);
    var d := Inputs(paces, c, Frame(17, Address(c.standard, sector), 0));
    SectorBlock(c, sector);
    FrameExecutes(paces, c, 17, Address(c.standard, sector), 0);
    ReadAnswer(p, c, sector);
    var rest := Silence(p.token) + [0xfe] + (block + [p.crc0, p.crc1]);
    ResponseTaken(paces, d, p.response, 0, rest, n);
    SentAfterResponse(p, block);
    var e := d.(out := Sent(p, block));
    LeadIsPlain(p);
    QuietStops(paces, e, m, TOKEN_POLLS, IsToken, |Lead(p)|);
    QuietPolled(paces, e, m);
    var f := Later(e, m);
    TakenFromSent(p, block);
    ReadsWhatIsSent(paces, f, Delivered(p, block));
    AllRead(paces, f);
  }

  lemma LeadIsPlain(p: Pace)
    ensures forall k :: 0 <= k < |Lead(p)| ==> !IsToken(Lead(p)[k])
  {
  }

  lemma ReadAnswer(p: Pace, c: Card, sector: int)
    requires HasSector(c, sector)
    ensures var block := Block(c.store, sector);
            Execute(p, c, 17, Address(c.standard, sector))
            == c.(mode := Command([]), served := c.served + 1,
                  out := Silence(p.response) + [0] + (Silence(p.token) + [0xfe] + (block + [p.crc0, p.crc1])))
  {
    hide Silence, Address;
    SectorBlock(c, sector);
    Assoc(Silence(p.token) + [0xfe], Block(c.store, sector), [p.crc0, p.crc1]);
  }

  /** However long the response takes, what follows the polls for it is the lead, the token and the data. */
  lemma SentAfterResponse(p: Pace, block: Bytes)
    ensures Owed(p.response, 0) + (Silence(p.token) + [0xfe] + (block + [p.crc0, p.crc1])) == Sent(p, block)
  {
    hide Silence, Owed;
    var data := block + [p.crc0, p.crc1];
    Assoc(Owed(p.response, 0), Silence(p.token), [0xfe]);
    Assoc(Owed(p.response, 0), Silence(p.token) + [0xfe], data);
  }

  /** Half a kilobyte is there to be read. */
  lemma TakenFromSent(p: Pace, block: Bytes)
    requires |block| == SECTOR
    ensures var n := if InTime(p) then |Lead(p)| + 1 else TOKEN_POLLS;
            var out := Sent(p, block)[n..];
            |out| >= SECTOR && out[..SECTOR] == Delivered(p, block)
  {
    hide Lead;
    if InTime(p) {
      assert Sent(p, block)[|Lead(p)| + 1..] == block + [p.crc0, p.crc1];
      assert (block + [p.crc0, p.crc1])[..SECTOR] == block;
    }
  }

  lemma ReadsWhatIsSent(paces: Paces, c: Card, data: Bytes)
    requires Quiet(c) && |data| <= |c.out| && c.out[..|data|] == data
    ensures ReadOut(paces, c, |data|) == data
  {
    hide ReadOut, Show;
    forall k | 0 <= k < |data| ensures ReadOut(paces, c, |data|)[k] == data[k] {
      QuietShow(paces, c, k);
      assert c.out[..|data|][k] == c.out[k];
    }
  }

  /** After the block and its checksum have been read. */
  lemma AllRead(paces: Paces, c: Card)
    requires Quiet(c)
    ensures Deselect(Polled(paces, Polled(paces, c, SECTOR), 2)) == Deselect(Later(c, SECTOR + 2))
  {
    PolledJoin(paces, c, SECTOR, 2);
    QuietPolled(paces, c, SECTOR + 2);
  }

  lemma MissedRead(paces: Paces, c: Card, sector: int, n: nat, m: nat)
    requires Waiting(c) && HasSector(c, sector) && c.busy >= 6
    requires var d := Inputs(paces, c, Frame(17, Address(c.standard, sector), 0));
             Stops(paces, d, n, RESPONSE_POLLS, IsAnswer) && Stops(paces, Polled(paces, d, n), m, TOKEN_POLLS, IsToken)
    ensures var d := Inputs(paces, c, Frame(17, Address(c.standard, sector), 0));
            var e := Polled(paces, Polled(paces, d, n), m);
            && ReadOut(paces, e, SECTOR) == ReadBack(paces, c, sector)
            && Deselect(Polled(paces, Polled(paces, e, SECTOR), 2)) == AfterRead(c)
  {
    hide Polled, Stops, Inputs, Frame, Address, ReadOut, Delivered, Block;
    FrameIsMissed(paces, c, 17, Address(c.standard, sector), 0);
    var d := c.(busy := c.busy - 6);
    BusyAnswer(paces, d, n);
    QuietPolled(paces, d, n);
    var e := Later(d, n);
    QuietGivesUp(paces, e, m, TOKEN_POLLS, IsToken);
    QuietPolled(paces, e, m);
    var f := Later(e, m);
    assert f.busy == Less(c.busy, TOKEN_POLLS + 7);
    forall k | 0 <= k < SECTOR ensures ReadOut(paces, f, SECTOR)[k] == Noise(f.busy)[k] {
      QuietShow(paces, f, k);
    }
    assert ReadOut(paces, f, SECTOR) == Noise(f.busy);
    AllRead(paces, f);
  }

  /** A busy card seems to answer at once, and without an error. */
  lemma BusyAnswer(paces: Paces, c: Card, polls: nat)
    requires Quiet(c) && c.out == [] && Stops(paces, c, polls, RESPONSE_POLLS, IsAnswer)
    ensures polls == if c.busy > 0 then 1 else RESPONSE_POLLS
    ensures Show(paces, c, polls - 1) == if c.busy > 0 then 0 else 0xff
  {
    hide Show, Stops;
    if c.busy > 0 {
      QuietShow(paces, c, 0);
      StopsAt(paces, c, polls, RESPONSE_POLLS, IsAnswer, 0);
    } else {
      forall k: nat ensures Show(paces, c, k) == 0xff {
        QuietShow(paces, c, k);
      }
      StopsAt(paces, c, polls, RESPONSE_POLLS, IsAnswer, RESPONSE_POLLS);
    }
  }

  // ----- the status -----

  /** The status is asked for. A busy card misses the command; frame, response and status take eight bytes. */
  function AfterStatus(c: Card): Card {
    if c.busy == 0 then c.(served := c.served + 1) else c.(busy := Less(c.busy, 8))
  }

  /** No error is seen: the answer is in time, or the card is busy for all of it. */
  predicate SeemsClean(paces: Paces, c: Card) {
    if c.busy == 0 then paces(c.served).response < RESPONSE_POLLS else c.busy >= 8
  }

  lemma StatusMeans(paces: Paces, c: Card, n: nat)
    requires Waiting(c)
    requires Stops(paces, Inputs(paces, c, Frame(13, 0, 0)), n, RESPONSE_POLLS, IsAnswer)
    ensures var d := Inputs(paces, c, Frame(13, 0, 0));
            && n > 0
            && (Show(paces, d, n - 1) == 0 == Shown(Polled(paces, d, n)) <==> SeemsClean(paces, c))
            && Deselect(Input(paces, Polled(paces, d, n), 0xff)) == AfterStatus(c)
  {
    hide Polled, Stops, Inputs, Frame, Show;
    var d := Inputs(paces, c, Frame(13, 0, 0));
    if c.busy == 0 {
      var wait := paces(c.served).response;
      FrameExecutes(paces, c, 13, 0, 0);
      StatusAnswer(wait);
      ResponseTaken(paces, d, wait, 0, [0], n);
      QuietPolled(paces, d, n);
      var e := Later(d, n);
      QuietInput(paces, e);
    } else {
      FrameIsMissed(paces, c, 13, 0, 0);
      BusyAnswer(paces, d, n);
      QuietPolled(paces, d, n);
      QuietInput(paces, Later(d, n));
    }
  }

  lemma StatusAnswer(wait: nat)
    ensures Silence(wait) + [0, 0] == Silence(wait) + [0] + [0]
  {
  }

  lemma QuietInput(paces: Paces, c: Card)
    requires Quiet(c)
    ensures Input(paces, c, 0xff) == Later(c, 1)
  {
    QuietPolled(paces, c, 1);
    assert Polled(paces, c, 1) == Input(paces, Polled(paces, c, 0), 0xff);
  }

  // ----- writes -----

  /** What the driver sends after the response to a write command: token, block and checksum. */
  function Sending(data: Bytes): Bytes { [0xfe] + data + [0xff, 0xff] }

  /** The part of it that the card hears: all of it, or what comes after its late response. */
  function Heard(p: Pace, data: Bytes): Bytes {
    var late := |Owed(p.response, 0)|;
    Sending(data)[Min(late, |Sending(data)|)..]
  }

  function TokenAt(s: Bytes): (i: nat)
    ensures i <= |s| && 0xfe !in s[..i] && (i < |s| ==> s[i] == 0xfe)
  {
    if s == [] then 0 else if s[0] == 0xfe then 0
    else
      var i := 1 + TokenAt(s[1..]);
      assert s[..i] == [s[0]] + s[1..][..i - 1];
      i
  }

  /** The block a card takes from what follows the token, and from the ones it is polled with. */
  function Filled(rest: Bytes): (r: Bytes)
    ensures |r| == SECTOR
  {
    (rest + Silence(SECTOR))[..SECTOR]
  }

  /** How long the card is still busy when the driver gives up; `m` polls were taken as data. */
  function StillBusy(q: Pace, m: nat): nat {
    if m + q.accepted < ACCEPT_POLLS then Less(q.busy, BUSY_POLLS) else q.busy
  }

  /** The card after a write to the block at `at`, before its status is asked for. */
  function AfterBlock(paces: Paces, c: Card, at: nat, data: Bytes): Card
    requires at + SECTOR <= |c.store| && |data| == SECTOR
  {
    var heard := Heard(paces(c.served), data);
    var i := TokenAt(heard);
    if i == |heard| then c.(served := c.served + 1)
    else
      var rest := heard[i + 1..];
      c.(store := Splice(c.store, at, Filled(rest)), served := c.served + 2,
         busy := StillBusy(paces(c.served + 1), SECTOR + 2 - |rest|))
  }

  /** The card after a sector was written: one that is busy for all of it hears nothing. */
  function Written(paces: Paces, c: Card, data: Bytes, sector: int): Card
    requires HasSector(c, sector) && |data| == SECTOR
  {
    if c.busy == 0 then AfterStatus(AfterBlock(paces, c, SECTOR * sector, data))
    else AfterStatus(c.(busy := Less(c.busy, DEAF + ACCEPT_POLLS + BUSY_POLLS)))
  }

  /** The steps of a write, from the command to the end of both waits. */
  lemma WriteMeans(paces: Paces, c: Card, sector: int, data: Bytes, n: nat, m: nat, l: nat)
    requires Waiting(c) && HasSector(c, sector) && |data| == SECTOR && (c.busy == 0 || c.busy >= DEAF)
    requires var d := Inputs(paces, c, Frame(24, Address(c.standard, sector), 0));
             var e := Inputs(paces, Polled(paces, d, n), Sending(data));
             && Stops(paces, d, n, RESPONSE_POLLS, IsAnswer) && Stops(paces, e, m, ACCEPT_POLLS, IsAccepted)
             && Stops(paces, Polled(paces, e, m), l, BUSY_POLLS, IsDone)
    ensures var d := Inputs(paces, c, Frame(24, Address(c.standard, sector), 0));
            var e := Inputs(paces, Polled(paces, d, n), Sending(data));
            AfterStatus(Deselect(Polled(paces, Polled(paces, e, m), l))) == Written(paces, c, data, sector)
  {
    hide Polled, Stops, Inputs, Frame, Address, AfterBlock, AfterStatus, Sending;
    if c.busy == 0 {
      HeardWrite(paces, c, sector, data, n, m, l);
    } else {
      MissedWrite(paces, c, sector, data, n, m, l);
    }
  }

  lemma MissedWrite(paces: Paces, c: Card, sector: int, data: Bytes, n: nat, m: nat, l: nat)
    requires Waiting(c) && HasSector(c, sector) && |data| == SECTOR && c.busy >= DEAF
    requires var d := Inputs(paces, c, Frame(24, Address(c.standard, sector), 0));
             var e := Inputs(paces, Polled(paces, d, n), Sending(data));
             && Stops(paces, d, n, RESPONSE_POLLS, IsAnswer) && Stops(paces, e, m, ACCEPT_POLLS, IsAccepted)
             && Stops(paces, Polled(paces, e, m), l, BUSY_POLLS, IsDone)
    ensures var d := Inputs(paces, c, Frame(24, Address(c.standard, sector), 0));
            var e := Inputs(paces, Polled(paces, d, n), Sending(data));
            Deselect(Polled(paces, Polled(paces, e, m), l))
            == c.(busy := Less(c.busy, DEAF + ACCEPT_POLLS + BUSY_POLLS))
  {
    hide Polled, Stops, Inputs, Frame, Address;
    FrameIsMissed(paces, c, 24, Address(c.standard, sector), 0);
    var d := c.(busy := c.busy - 6);
    BusyAnswer(paces, d, n);
    QuietPolled(paces, d, n);
    var d' := c.(busy := c.busy - 7);
    BusyHearsNothing(paces, d', Sending(data));
    var e := c.(busy := c.busy - DEAF);
    QuietGivesUp(paces, e, m, ACCEPT_POLLS, IsAccepted);
    QuietPolled(paces, e, m);
    var f := Later(e, m);
    BusyStops(paces, f, l, BUSY_POLLS);
    QuietPolled(paces, f, l);
  }

  lemma HeardWrite(paces: Paces, c: Card, sector: int, data: Bytes, n: nat, m: nat, l: nat)
    requires AtRest(c) && HasSector(c, sector) && |data| == SECTOR
    requires var d := Inputs(paces, c, Frame(24, Address(c.standard, sector), 0));
             var e := Inputs(paces, Polled(paces, d, n), Sending(data));
             && Stops(paces, d, n, RESPONSE_POLLS, IsAnswer) && Stops(paces, e, m, ACCEPT_POLLS, IsAccepted)
             && Stops(paces, Polled(paces, e, m), l, BUSY_POLLS, IsDone)
    ensures var d := Inputs(paces, c, Frame(24, Address(c.standard, sector), 0));
            var e := Inputs(paces, Polled(paces, d, n), Sending(data));
            Deselect(Polled(paces, Polled(paces, e, m), l)) == AfterBlock(paces, c, SECTOR * sector, data)
  {
    hide Polled, Stops, Inputs, Frame, Address, Sending, Silence, Filled, Splice, StillBusy;
    var p, at := paces(c.served), SECTOR * sector;
    var d := Inputs(paces, c, Frame(24, Address(c.standard, sector), 0));
    SectorBlock(c, sector);
    FrameExecutes(paces, c, 24, Address(c.standard, sector), 0);
    assert d.out == Silence(p.response) + [0] + [];
    ResponseTaken(paces, d, p.response, 0, [], n);
    var d' := c.(mode := Token(at), served := c.served + 1, out := Owed(p.response, 0));
    assert Owed(p.response, 0) + [] == Owed(p.response, 0);
    assert Polled(paces, d, n) == d';
    var heard := Heard(p, data);
    assert heard[..|heard|] == heard;
    if TokenAt(heard) == |heard| {
      NothingTaken(paces, d', data, m, l);
    } else {
      BlockTaken(paces, d', at, data, m, l);
    }
  }

  /** What is sent while the card owes its response is not heard; the rest is. */
  lemma HeardPart(paces: Paces, c: Card, s: Bytes)
    ensures var k := |c.out|;
            && (k <= |s| ==> Inputs(paces, c, s) == Inputs(paces, c.(out := []), s[k..]))
            && (k >= |s| ==> Inputs(paces, c, s) == c.(out := c.out[|s|..]))
  {
    hide Inputs, Input;
    var k := |c.out|;
    if k <= |s| {
      Unheard(paces, c, s[..k]);
      assert c.out[k..] == [];
      InputsJoin(paces, c, s[..k], s[k..]);
      assert s[..k] + s[k..] == s;
    }
    if k >= |s| {
      Unheard(paces, c, s);
    }
  }

  lemma NothingTaken(paces: Paces, c: Card, data: Bytes, m: nat, l: nat)
    requires c.mode.Token? && c.busy == 0
    requires 0xfe !in Sending(data)[Min(|c.out|, |Sending(data)|)..]
    ensures var e := Inputs(paces, c, Sending(data));
            Deselect(Polled(paces, Polled(paces, e, m), l)) == Deselect(c)
  {
    hide Polled, Inputs, Sending;
    var s, k := Sending(data), |c.out|;
    HeardPart(paces, c, s);
    if k <= |s| {
      NoToken(paces, c.(out := []), s[k..]);
    }
    var e := Inputs(paces, c, s);
    QuietPolled(paces, e, m);
    QuietPolled(paces, Later(e, m), l);
  }

  /** A card that finds a token takes what follows, and then the ones it is polled with, until the block is full. */
  lemma BlockTaken(paces: Paces, c: Card, at: nat, data: Bytes, m: nat, l: nat)
    requires c.mode == Token(at) && c.busy == 0 && |data| == SECTOR && at + SECTOR <= |c.store|
    requires 0xfe in Sending(data)[Min(|c.out|, |Sending(data)|)..]
    requires var e := Inputs(paces, c, Sending(data));
             && Stops(paces, e, m, ACCEPT_POLLS, IsAccepted)
             && Stops(paces, Polled(paces, e, m), l, BUSY_POLLS, IsDone)
    ensures var e := Inputs(paces, c, Sending(data));
            var heard := Sending(data)[Min(|c.out|, |Sending(data)|)..];
            var rest := heard[TokenAt(heard) + 1..];
            Deselect(Polled(paces, Polled(paces, e, m), l))
            == c.(mode := Command([]), out := [], store := Splice(c.store, at, Filled(rest)), served := c.served + 1,
                  busy := StillBusy(paces(c.served), SECTOR + 2 - |rest|))
  {
    hide Polled, Stops, Inputs, Sending, Splice, Filled, Show, Silence;
    var s := Sending(data);
    LengthSent(data);
    var heard := s[Min(|c.out|, |s|)..];
    var i := TokenAt(heard);
    assert heard[..|heard|] == heard;
    var rest := heard[i + 1..];
    var x := c.(out := [], mode := Data(at, []));
    HeardPart(paces, c, s);
    AfterToken(paces, c.(out := []), at, heard, i);
    var e := Inputs(paces, x, rest);
    var missing := SECTOR + 2 - |rest|;
    var y := Program(paces, x, at, Filled(rest));
    FillsUp(paces, x, at, rest, missing);
    SilenceLength(paces(c.served).accepted);
    WaitsForBoth(paces, e, y, missing, m, l);
  }

  /** Both waits on a card that programs a block, with `missing` polls taken as data before. */
  lemma WaitsForBoth(paces: Paces, e: Card, y: Card, missing: nat, m: nat, l: nat)
    requires Polled(paces, e, missing) == y && Quiet(y) && missing <= SECTOR + 2
    requires forall k: nat :: k < missing ==> Show(paces, e, k) == 0xff
    requires y.out != [] && y.out == Silence(|y.out| - 1) + [0x05]
    requires Stops(paces, e, m, ACCEPT_POLLS, IsAccepted) && Stops(paces, Polled(paces, e, m), l, BUSY_POLLS, IsDone)
    ensures Deselect(Polled(paces, Polled(paces, e, m), l))
            == Deselect(y).(busy := if missing + |y.out| - 1 < ACCEPT_POLLS then Less(y.busy, BUSY_POLLS) else y.busy)
  {
    hide Polled, Stops, Show;
    WaitsForAcceptance(paces, e, y, missing, m);
    PolledSplit(paces, e, missing, m);
    QuietPolled(paces, y, m - missing);
    var f := Later(y, m - missing);
    WaitsWhileBusy(paces, f, l);
    QuietPolled(paces, f, l);
  }

  lemma LengthSent(data: Bytes)
    ensures |Sending(data)| == |data| + 3
  {
  }

  lemma PolledSplit(paces: Paces, c: Card, a: nat, b: nat)
    requires a <= b
    ensures Polled(paces, c, b) == Polled(paces, Polled(paces, c, a), b - a)
  {
    PolledJoin(paces, c, a, b - a);
  }

  lemma AfterToken(paces: Paces, c: Card, at: nat, heard: Bytes, i: nat)
    requires c.mode == Token(at) && c.out == [] && c.busy == 0 && i < |heard| && 0xfe !in heard[..i] && heard[i] == 0xfe
    ensures Inputs(paces, c, heard) == Inputs(paces, c.(mode := Data(at, [])), heard[i + 1..])
  {
    hide Inputs;
    NoToken(paces, c, heard[..i]);
    InputsOne(paces, c, 0xfe);
    InputsJoin(paces, c, heard[..i], [0xfe]);
    InputsJoin(paces, c, heard[..i] + [0xfe], heard[i + 1..]);
    assert heard[..i] + [0xfe] + heard[i + 1..] == heard;
  }

  /** The bytes still missing from a block come from the polls; until then the line stays high. */
  lemma FillsUp(paces: Paces, x: Card, at: nat, rest: Bytes, missing: nat)
    requires x.mode == Data(at, []) && x.out == [] && x.busy == 0 && at + SECTOR <= |x.store|
    requires |rest| + missing == SECTOR + 2
    ensures var e := Inputs(paces, x, rest);
            && Polled(paces, e, missing) == Program(paces, x, at, Filled(rest))
            && forall k: nat :: k < missing ==> Show(paces, e, k) == 0xff
  {
    hide Polled, Inputs, Program, Silence;
    var e := Inputs(paces, x, rest);
    forall k: nat | k < missing ensures Show(paces, e, k) == 0xff {
      SilenceLength(k);
      PollingIsWriting(paces, x, rest, k);
      DataCollects(paces, x, at, rest + Silence(k));
    }
    SilenceLength(missing);
    PollingIsWriting(paces, x, rest, missing);
    BlockStored(paces, x, at, rest + Silence(missing));
    FilledByOnes(rest, missing);
  }

  lemma SilenceLength(n: nat)
    ensures |Silence(n)| == n
  {
  }

  lemma FilledByOnes(rest: Bytes, missing: nat)
    requires |rest| + missing == SECTOR + 2
    ensures |rest + Silence(missing)| == SECTOR + 2 && (rest + Silence(missing))[..SECTOR] == Filled(rest)
  {
  }

  /** The wait for the acceptance, with `missing` polls taken as data before. */
  lemma WaitsForAcceptance(paces: Paces, e: Card, y: Card, missing: nat, m: nat)
    requires Polled(paces, e, missing) == y && Quiet(y) && missing <= SECTOR + 2
    requires forall k: nat :: k < missing ==> Show(paces, e, k) == 0xff
    requires y.out != [] && y.out == Silence(|y.out| - 1) + [0x05]
    requires Stops(paces, e, m, ACCEPT_POLLS, IsAccepted)
    ensures m == if missing + |y.out| - 1 < ACCEPT_POLLS then missing + |y.out| else ACCEPT_POLLS
  {
    hide Polled, Stops;
    var n := missing + |y.out| - 1;
    forall k: nat | missing <= k <= n
      ensures Show(paces, e, k) == if k < n then 0xff else 0x05
    {
      PolledSplit(paces, e, missing, k);
      QuietShow(paces, y, k - missing);
    }
    StopsAt(paces, e, m, ACCEPT_POLLS, IsAccepted, n);
  }

  /** The wait for a card that is busy; one that has yet to accept the block seems ready at once. */
  lemma WaitsWhileBusy(paces: Paces, f: Card, l: nat)
    requires Quiet(f) && Stops(paces, f, l, BUSY_POLLS, IsDone) && (f.out != [] ==> f.out[0] != 0)
    ensures f.out == [] ==> Later(f, l).busy == Less(f.busy, BUSY_POLLS)
    ensures f.out != [] ==> Later(f, l).busy == f.busy
  {
    hide Stops;
    if f.out == [] {
      BusyStops(paces, f, l, BUSY_POLLS);
    } else {
      QuietStops(paces, f, l, BUSY_POLLS, IsDone, 0);
    }
  }

  // ----- when a write is right -----

  /** A card that answers in time hears the block from its token on. */
  lemma TimelyHeard(p: Pace, data: Bytes)
    requires p.response < RESPONSE_POLLS && |data| == SECTOR
    ensures var heard := Heard(p, data);
            && TokenAt(heard) == 0 < |heard| && |heard[1..]| == SECTOR + 2 && Filled(heard[1..]) == data
  {
    var heard := Heard(p, data);
    assert heard == Sending(data);
    assert heard[1..] == data + [0xff, 0xff];
  }

  /** After a timely response exactly the sector changes; the card is ready again unless it is busy too long. */
  lemma TimelyWrite(paces: Paces, c: Card, data: Bytes, sector: int)
    requires c.busy == 0 && HasSector(c, sector) && |data| == SECTOR && paces(c.served).response < RESPONSE_POLLS
    ensures var d := Written(paces, c, data, sector);
            && d == c.(store := Splice(c.store, SECTOR * sector, data), busy := d.busy, served := d.served)
            && d.busy == Less(StillBusy(paces(c.served + 1), 0), 8)
  {
    hide Heard, Filled, TokenAt, StillBusy, Splice;
    TimelyHeard(paces(c.served), data);
  }

  /** A card in time takes the write and is at rest again. */
  lemma PromptWrite(paces: Paces, c: Card, data: Bytes, sector: int)
    requires AtRest(c) && HasSector(c, sector) && |data| == SECTOR && AllPrompt(paces)
    ensures var d := Written(paces, c, data, sector);
            AtRest(d) && d == c.(store := Splice(c.store, SECTOR * sector, data), served := d.served)
  {
    hide Written, Splice;
    assert Prompt(paces(c.served)) && Prompt(paces(c.served + 1));
    TimelyWrite(paces, c, data, sector);
  }

  /** The exact limits on a card that answers the command in time. */
  lemma AtRestIff(paces: Paces, c: Card, data: Bytes, sector: int)
    requires AtRest(c) && HasSector(c, sector) && |data| == SECTOR && paces(c.served).response < RESPONSE_POLLS
    ensures var q := paces(c.served + 1);
            AtRest(Written(paces, c, data, sector)) <==>
              q.busy <= 8 || (q.accepted < 0xffe && q.busy <= 0xfffffe + 8)
  {
    hide Written, Splice;
    TimelyWrite(paces, c, data, sector);
  }

  /** What a late card takes for the block is never the block. */
  lemma LateBlockIsWrong(p: Pace, data: Bytes)
    requires p.response >= RESPONSE_POLLS && |data| == SECTOR
    ensures var heard := Heard(p, data);
            TokenAt(heard) < |heard| ==> Filled(heard[TokenAt(heard) + 1..]) != data
  {
    hide Owed, TokenAt, Filled;
    OwesSomething(p);
    var s, heard := Sending(data), Heard(p, data);
    var i := TokenAt(heard);
    if i < |heard| && Filled(heard[i + 1..]) == data {
      var j := |s| - |heard| + i - 1;
      assert s[j + 1] == heard[i];
      assert data[j] == 0xfe;
      assert heard[i + 1..] == data[j + 1..] + [0xff, 0xff];
      forall x | 0 <= x < SECTOR ensures data[x] == if x + j + 1 < SECTOR then data[x + j + 1] else 0xff {
        ShiftedAt(data, j, x);
      }
      ShiftedIsOnes(data, j, j);
    }
  }

  lemma OwesSomething(p: Pace)
    requires p.response >= RESPONSE_POLLS
    ensures |Owed(p.response, 0)| > 0
  {
  }

  lemma ShiftedAt(data: Bytes, j: nat, x: nat)
    requires |data| == SECTOR && j < SECTOR && x < SECTOR
    ensures Filled(data[j + 1..] + [0xff, 0xff])[x] == if x + j + 1 < SECTOR then data[x + j + 1] else 0xff
  {
    var rest := data[j + 1..] + [0xff, 0xff];
    assert Filled(rest)[x] == (rest + Silence(SECTOR))[x];
  }

  /** A block that is its own shift, filled up with ones, is all ones. */
  lemma {:induction false} ShiftedIsOnes(data: Bytes, j: nat, x: nat)
    requires |data| == SECTOR && x < SECTOR
    requires forall y :: 0 <= y < SECTOR ==> data[y] == if y + j + 1 < SECTOR then data[y + j + 1] else 0xff
    ensures data[x] == 0xff
    decreases SECTOR - x
  {
    assert data[x] == if x + j + 1 < SECTOR then data[x + j + 1] else 0xff;
    if x + j + 1 < SECTOR {
      ShiftedIsOnes(data, j, x + j + 1);
    }
  }

  /**
   A sector written to a card at rest holds the data exactly if the response came in time, or it held
   them before and the card found no token in the part it heard.
   */
  lemma WriteLandsIff(paces: Paces, c: Card, data: Bytes, sector: int)
    requires c.busy == 0 && HasSector(c, sector) && |data| == SECTOR
    ensures |Written(paces, c, data, sector).store| == |c.store|
    ensures var p := paces(c.served);
            Block(Written(paces, c, data, sector).store, sector) == data <==>
              p.response < 0xff || (0xfe !in Heard(p, data) && Block(c.store, sector) == data)
  {
    hide Heard, Filled, TokenAt, StillBusy, Block, Splice;
    var p := paces(c.served);
    var heard := Heard(p, data);
    var i := TokenAt(heard);
    assert heard[..|heard|] == heard;
    if i < |heard| {
      assert heard[i] in heard;
      BlockOfWritten(c.store, sector, Filled(heard[i + 1..]));
    }
    if p.response < RESPONSE_POLLS {
      TimelyHeard(p, data);
    } else {
      LateBlockIsWrong(p, data);
    }
  }

  lemma BlockOfWritten(store: Bytes, sector: int, data: Bytes)
    requires 0 <= sector && SECTOR * (sector + 1) <= |store| && |data| == SECTOR
    ensures Block(Splice(store, SECTOR * sector, data), sector) == data
  {
  }

  /** A response one poll too late: zeros are not stored at all. */
  lemma LateWriteExample(paces: Paces, c: Card)
    requires AtRest(c) && HasSector(c, 0) && paces(c.served).response == RESPONSE_POLLS
    ensures Written(paces, c, Zeros(SECTOR), 0).store == c.store
  {
    var data := Zeros(SECTOR);
    var heard := Heard(paces(c.served), data);
    assert |Owed(RESPONSE_POLLS, 0)| == 1;
    assert heard == data + [0xff, 0xff];
  }

  /** The same response, and data that start with the token's byte: the sector gets them shifted. */
  lemma ShiftedWriteExample(paces: Paces, c: Card)
    requires AtRest(c) && HasSector(c, 0) && paces(c.served).response == RESPONSE_POLLS
    ensures Block(Written(paces, c, [0xfe] + Zeros(SECTOR - 1), 0).store, 0) == Zeros(SECTOR - 1) + [0xff]
  {
    hide Block;
    var data := [0xfe] + Zeros(SECTOR - 1);
    var heard := Heard(paces(c.served), data);
    assert |Owed(RESPONSE_POLLS, 0)| == 1;
    assert heard == data + [0xff, 0xff];
    assert TokenAt(heard) == 0;
    assert heard[1..] == Zeros(SECTOR - 1) + [0xff, 0xff];
    assert Filled(heard[1..]) == Zeros(SECTOR - 1) + [0xff];
    BlockOfWritten(c.store, 0, Zeros(SECTOR - 1) + [0xff]);
  }

  /** A card still busy when the driver gives up loses the next write, whatever it is, and no error is seen. */
  lemma NextWriteIsLost(paces: Paces, c: Card, a: Bytes, s: int, b: Bytes, t: int)
    requires AtRest(c) && HasSector(c, s) && HasSector(c, t) && |a| == |b| == SECTOR
    requires paces(c.served).response < RESPONSE_POLLS && StillBusy(paces(c.served + 1), 0) >= DEAF + 8
    ensures var d := Written(paces, c, a, s);
            && d.store == Splice(c.store, SECTOR * s, a) && Written(paces, d, b, t).store == d.store
            && SeemsClean(paces, AfterBlock(paces, c, SECTOR * s, a))
  {
    hide Splice, StillBusy, Filled, Heard;
    TimelyWrite(paces, c, a, s);
    TimelyHeard(paces(c.served), a);
  }

  /** Every answer at once, but programming takes four times as long as the driver waits. */
  function Slow(k: nat): Pace { Pace(0, 0, 0, 0x4000000, 0, 0, 0) }

  lemma SlowCardExample(c: Card)
    requires AtRest(c) && HasSector(c, 1) && Block(c.store, 1) == Zeros(SECTOR)
    ensures var d := Written(Slow, c, Silence(SECTOR), 0);
            Block(Written(Slow, d, Silence(SECTOR), 1).store, 1) == Zeros(SECTOR)
  {
    hide Written;
    NextWriteIsLost(Slow, c, Silence(SECTOR), 0, Silence(SECTOR), 1);
    TimelyWrite(Slow, c, Silence(SECTOR), 0);
  }
}

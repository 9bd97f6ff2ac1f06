/**
 Writing an image to the flash over the serial line: padded pieces, one request each, resent until an
 answer comes. The board applies the requests it receives; which of them arrive, and which answers
 come back, is a parameter.
 */
module FlashWriter {
  import opened Arithmetic
  import opened Results
  import opened Sequences
  import opened FlashChunks
  import opened ByteValues
  import opened Words
  import AesCbc
  import AesKeys
  import Slip

  const MAX_RETRIES := 10

  /** The bytes of the flash that are known, by address. */
  type Flash = map<int, bv8>

  /** The flash with data stored from an address on. */
  function Put(f: Flash, address: int, data: Bytes): Flash {
    f + map x | address <= x < address + |data| :: ByteFor(address, data, x)
  }

  function ByteFor(address: int, data: Bytes, x: int): bv8
    requires address <= x < address + |data|
  {
    data[x - address]
  }

  lemma PutTwice(f: Flash, address: int, data: Bytes)
    ensures Put(Put(f, address, data), address, data) == Put(f, address, data)
  {
  }

  lemma PutNext(f: Flash, address: int, a: Bytes, b: Bytes)
    ensures Put(Put(f, address, a), address + |a|, b) == Put(f, address, a + b)
  {
    hide Put;
    var first := Put(f, address, a);
    var left, right := Put(first, address + |a|, b), Put(f, address, a + b);
    forall x ensures x in left <==> x in right {
      PutAt(f, address, a, x);
      PutAt(first, address + |a|, b, x);
      PutAt(f, address, a + b, x);
    }
    forall x | x in right ensures left[x] == right[x] {
      PutAt(f, address, a, x);
      PutAt(first, address + |a|, b, x);
      PutAt(f, address, a + b, x);
    }
  }

  lemma PutAt(f: Flash, address: int, data: Bytes, x: int)
    ensures x in Put(f, address, data) <==> x in f || address <= x < address + |data|
    ensures x in Put(f, address, data) ==>
      Put(f, address, data)[x] == if address <= x < address + |data| then data[x - address] else f[x]
  {
  }

  // ----- one request -----

  /** Address, length and data: what the checksum covers. */
  function Body(address: int, data: Bytes): Bytes { Pack(address, 4) + Pack(|data|, 4) + data }

  function Request(crc: Bytes -> int, address: int, data: Bytes): Bytes {
    [0xd4, 0, 0, 0] + Pack(crc(Body(address, data)) % WORD, 4) + Body(address, data)
  }

  /** The board's side: a well-formed request is stored, anything else ignored. */
  function Obey(crc: Bytes -> int, f: Flash, packet: Bytes): Flash {
    if |packet| >= 16 && packet[..4] == [0xd4, 0, 0, 0]
       && Unpack(packet[4..8]) == crc(packet[8..]) % WORD && Unpack(packet[12..16]) == |packet| - 16
    then Put(f, Unpack(packet[8..12]), packet[16..])
    else f
  }

  function ObeyAll(crc: Bytes -> int, f: Flash, packets: seq<Bytes>): Flash {
    if packets == [] then f else Obey(crc, ObeyAll(crc, f, packets[..|packets| - 1]), packets[|packets| - 1])
  }

  /** What bytes on the line do to the flash. */
  function Receive(crc: Bytes -> int, f: Flash, wire: Bytes): Flash {
    match Slip.Read(Slip.Idle, wire)
    case Raised => f
    case Ok(fed) => ObeyAll(crc, f, fed.packets)
  }

  lemma RequestFields(crc: Bytes -> int, address: int, data: Bytes)
    ensures var r := Request(crc, address, data);
            && |r| == 16 + |data| && r[..4] == [0xd4, 0, 0, 0]
            && r[4..8] == Pack(crc(Body(address, data)) % WORD, 4) && r[8..] == Body(address, data)
            && r[8..12] == Pack(address, 4) && r[12..16] == Pack(|data|, 4) && r[16..] == data
  {
    hide Pack;
    var r := Request(crc, address, data);
    var sum := Pack(crc(Body(address, data)) % WORD, 4);
    assert r[4..8] == sum;
    assert r[8..] == Body(address, data);
    assert r[8..12] == Pack(address, 4);
  }

  /** The number in four bytes of a packet, the lowest first. */
  function FourAt(r: Bytes, i: nat): int
    requires i + 4 <= |r|
  {
    Value(r[i]) + 0x100 * Value(r[i + 1]) + 0x1_0000 * Value(r[i + 2]) + 0x100_0000 * Value(r[i + 3])
  }

  /** The bytes of a request: operation, checksum of all that follows it, address, length, data. */
  lemma RequestReads(crc: Bytes -> int, address: int, data: Bytes)
    requires 0 <= address < WORD && |data| < WORD
    ensures var r := Request(crc, address, data);
            && |r| == 16 + |data| && FourAt(r, 0) == 0xd4 && FourAt(r, 4) == crc(r[8..]) % WORD
            && FourAt(r, 8) == address && FourAt(r, 12) == |data| && r[16..] == data
  {
    hide Request, Body, Pack, Unpack, Value;
    var r := Request(crc, address, data);
    RequestFields(crc, address, data);
    WordLimit();
    UnpackPack(crc(Body(address, data)) % WORD, 4);
    UnpackPack(address, 4);
    UnpackPack(|data|, 4);
    FourBytes(r[4..8]);
    FourBytes(r[8..12]);
    FourBytes(r[12..16]);
    OperationByte();
    assert r[0] == r[..4][0] && r[1] == r[..4][1] && r[2] == r[..4][2] && r[3] == r[..4][3];
  }

  lemma OperationByte()
    ensures Value(0xd4) == 0xd4 && Value(0) == 0
  {
  }

  /** A request that arrives stores its data at its address. */
  lemma RequestIsStored(crc: Bytes -> int, f: Flash, address: int, data: Bytes)
    requires 0 <= address < WORD && |data| < WORD
    ensures Receive(crc, f, Slip.Frame(Request(crc, address, data))) == Put(f, address, data)
  {
    hide Put, Slip.Frame, Slip.Read, Request, Body, Pack, Unpack, Limit;
    var r := Request(crc, address, data);
    Slip.ReadFrame(r);
    RequestFields(crc, address, data);
    WordLimit();
    UnpackPack(address, 4);
    UnpackPack(|data|, 4);
    UnpackPack(crc(Body(address, data)) % WORD, 4);
    ObeyOne(crc, f, r);
    assert Obey(crc, f, r) == Put(f, address, data);
  }

  lemma ObeyOne(crc: Bytes -> int, f: Flash, packet: Bytes)
    ensures ObeyAll(crc, f, [packet]) == Obey(crc, f, packet)
  {
    hide Obey;
    assert [packet][..0] == [];
  }

  // ----- sending a request until it is answered -----

  /** What comes back: an answer, a packet that is no answer, or no packet (a timeout or a broken escape). */
  datatype Reply = Answered | Garbled | Silent

  /** One attempt: whether the request is stored, and what comes back. */
  datatype Attempt = Attempt(stored: bool, reply: Reply)

  /** All attempts that reach the line, in the order they are made. */
  type Line = nat -> Attempt

  /** The flash, the attempts that reached the line, and whether the serial port is open. */
  datatype Port = Port(flash: Flash, sent: nat, open: bool)

  datatype Ending = Ending(ok: bool, port: Port)

  /** One attempt. A closed port sends nothing; waiting in vain for a packet closes it. */
  function Send(line: Line, p: Port, address: int, data: Bytes): Port {
    if p.open then
      var a := line(p.sent);
      Port(if a.stored then Put(p.flash, address, data) else p.flash, p.sent + 1, a.reply != Silent)
    else p
  }

  /** Nothing opens the port again; giving up closes it. */
  function Try(line: Line, p: Port, address: int, data: Bytes, retries: nat): Ending
    requires retries <= MAX_RETRIES
    decreases MAX_RETRIES - retries
  {
    var q := Send(line, p, address, data);
    if p.open && line(p.sent).reply == Answered then Ending(true, q)
    else if retries == MAX_RETRIES then Ending(false, q.(open := false))
    else Try(line, q, address, data, retries + 1)
  }

  ghost predicate Stored(line: Line, from: nat, until: nat) {
    exists k: nat :: from <= k < until && line(k).stored
  }

  ghost predicate NoneSilent(line: Line, from: nat, until: nat) {
    forall k: nat :: from <= k < until ==> line(k).reply != Silent
  }

  /** Some attempt is answered, and none before it is silent. */
  ghost predicate Heard(line: Line, from: nat, until: nat) {
    exists k: nat :: from <= k < until && line(k).reply == Answered && NoneSilent(line, from, k)
  }

  /** Attempt `k` is the first one answered, and all before it are garbled. */
  ghost predicate FirstAnswer(line: Line, from: nat, k: nat) {
    from <= k && line(k).reply == Answered && forall j: nat :: from <= j < k ==> line(j).reply == Garbled
  }

  /**
   At most eleven attempts, which succeed exactly if one is answered with no silent one before it.
   Resending changes nothing, and only success leaves the port open.
   */
  lemma {:induction false} TryMeans(line: Line, p: Port, address: int, data: Bytes, retries: nat)
    requires retries <= MAX_RETRIES
    ensures var e := Try(line, p, address, data, retries);
            var last := p.sent + MAX_RETRIES + 1 - retries;
            && p.sent <= e.port.sent <= last
            && (e.ok <==> p.open && Heard(line, p.sent, last))
            && (e.ok ==> p.sent < e.port.sent && FirstAnswer(line, p.sent, e.port.sent - 1))
            && e.port.open == e.ok
            && e.port.flash == if Stored(line, p.sent, e.port.sent) then Put(p.flash, address, data) else p.flash
    decreases MAX_RETRIES - retries
  {
    hide Put, Stored, Heard, FirstAnswer;
    var q := Send(line, p, address, data);
    var e := Try(line, p, address, data, retries);
    var last := p.sent + MAX_RETRIES + 1 - retries;
    NothingStored(line, p.sent);
    if p.open {
      SplitStored(line, p.sent, p.sent + 1);
      NothingStored(line, p.sent + 1);
      SplitHeard(line, p.sent, last);
      NothingHeard(line, last);
    }
    if !(p.open && line(p.sent).reply == Answered) && retries < MAX_RETRIES {
      TryMeans(line, q, address, data, retries + 1);
      PutTwice(p.flash, address, data);
      if q.sent > p.sent {
        SplitStored(line, p.sent, e.port.sent);
        ExtendAnswer(line, p.sent, e.port.sent);
      }
    } else {
      AnswerAtOnce(line, p.sent);
    }
  }

  /** A request is sent eleven times at most, and is done exactly if one of eleven attempts is heard. */
  lemma ElevenAttempts(line: Line, p: Port, address: int, data: Bytes)
    requires 0 <= address < 0x1_0000_0000 && |data| < 0x1_0000_0000
    ensures var e := SendPiece(line, p, address, data);
            p.sent <= e.port.sent <= p.sent + 11 && (e.ok <==> p.open && Heard(line, p.sent, p.sent + 11))
  {
    hide Try, Heard;
    TryMeans(line, p, address, data, 0);
  }

  lemma NothingStored(line: Line, from: nat)
    ensures !Stored(line, from, from)
  {
  }

  lemma NothingHeard(line: Line, from: nat)
    ensures !Heard(line, from, from)
  {
  }

  lemma SplitStored(line: Line, from: nat, until: nat)
    requires from < until
    ensures Stored(line, from, until) <==> line(from).stored || Stored(line, from + 1, until)
  {
  }

  lemma SplitHeard(line: Line, from: nat, until: nat)
    requires from < until
    ensures Heard(line, from, until) <==>
      line(from).reply == Answered || (line(from).reply == Garbled && Heard(line, from + 1, until))
  {
    if line(from).reply == Answered {
      assert NoneSilent(line, from, from);
    }
    if line(from).reply == Garbled && Heard(line, from + 1, until) {
      var k: nat :| from + 1 <= k < until && line(k).reply == Answered && NoneSilent(line, from + 1, k);
      assert NoneSilent(line, from, k);
    }
    if line(from).reply != Answered && Heard(line, from, until) {
      var k: nat :| from <= k < until && line(k).reply == Answered && NoneSilent(line, from, k);
      assert NoneSilent(line, from + 1, k);
    }
  }

  lemma AnswerAtOnce(line: Line, from: nat)
    ensures line(from).reply == Answered ==> FirstAnswer(line, from, from)
  {
  }

  lemma ExtendAnswer(line: Line, from: nat, until: nat)
    ensures from + 1 < until && line(from).reply == Garbled && FirstAnswer(line, from + 1, until - 1)
            ==> FirstAnswer(line, from, until - 1)
  {
  }

  // ----- sending pieces to consecutive addresses -----

  predicate Fits(address: int, data: Bytes) { 0 <= address < WORD && |data| < WORD }

  function SendPiece(line: Line, p: Port, address: int, data: Bytes): Ending {
    if Fits(address, data) then Try(line, p, address, data, 0) else Ending(false, p)
  }

  function SendAll(line: Line, p: Port, address: int, pieces: seq<Bytes>): Ending
    decreases |pieces|
  {
    if pieces == [] then Ending(true, p)
    else
      var e := SendPiece(line, p, address, pieces[0]);
      if e.ok then SendAll(line, e.port, address + |pieces[0]|, pieces[1..]) else e
  }

  /** Every piece is stored by some attempt, or was in its place before. */
  ghost predicate Landed(line: Line, p: Port, address: int, pieces: seq<Bytes>)
    decreases |pieces|
  {
    pieces == [] ||
    var q := SendPiece(line, p, address, pieces[0]).port;
    && (Stored(line, p.sent, q.sent) || Put(p.flash, address, pieces[0]) == p.flash)
    && Landed(line, q, address + |pieces[0]|, pieces[1..])
  }

  lemma PieceMeans(line: Line, p: Port, address: int, data: Bytes)
    ensures var e := SendPiece(line, p, address, data);
            e.port.flash == if Stored(line, p.sent, e.port.sent) then Put(p.flash, address, data) else p.flash
  {
    hide Put, Try;
    if Fits(address, data) {
      TryMeans(line, p, address, data, 0);
    }
  }

  /** Nothing below the first address changes. */
  lemma {:induction false} SendKeepsBelow(line: Line, p: Port, address: int, pieces: seq<Bytes>, x: int)
    requires x < address
    ensures var f := SendAll(line, p, address, pieces).port.flash;
            (x in f <==> x in p.flash) && (x in f ==> f[x] == p.flash[x])
    decreases |pieces|
  {
    hide Put, SendPiece, Stored;
    if pieces != [] {
      var e := SendPiece(line, p, address, pieces[0]);
      PieceMeans(line, p, address, pieces[0]);
      PutAt(p.flash, address, pieces[0], x);
      SendKeepsBelow(line, e.port, address + |pieces[0]|, pieces[1..], x);
    }
  }

  /** When all is sent, the flash holds the pieces in a row, and is otherwise as before, exactly if they landed. */
  lemma {:induction false} SendStoresIffLanded(line: Line, p: Port, address: int, pieces: seq<Bytes>)
    requires SendAll(line, p, address, pieces).ok
    ensures SendAll(line, p, address, pieces).port.flash == Put(p.flash, address, Flatten(pieces))
            <==> Landed(line, p, address, pieces)
    decreases |pieces|
  {
    hide Put, SendPiece, Stored;
    if pieces == [] {
      PutNothing(p.flash, address);
    } else {
      var piece, rest := pieces[0], pieces[1..];
      var e := SendPiece(line, p, address, piece);
      PieceMeans(line, p, address, piece);
      SendStoresIffLanded(line, e.port, address + |piece|, rest);
      assert pieces == [piece] + rest;
      FlattenCons(piece, rest);
      PutNext(p.flash, address, piece, Flatten(rest));
      var after := SendAll(line, p, address, pieces).port.flash;
      if e.port.flash != Put(p.flash, address, piece) {
        MissingPiece(line, p, address, piece, rest);
      }
    }
  }

  lemma PutNothing(f: Flash, address: int)
    ensures Put(f, address, []) == f
  {
  }

  /** A piece that did not land leaves the flash wrong whatever follows. */
  lemma MissingPiece(line: Line, p: Port, address: int, piece: Bytes, rest: seq<Bytes>)
    requires SendPiece(line, p, address, piece).ok
    requires SendPiece(line, p, address, piece).port.flash == p.flash != Put(p.flash, address, piece)
    ensures SendAll(line, p, address, [piece] + rest).port.flash
            != Put(Put(p.flash, address, piece), address + |piece|, Flatten(rest))
  {
    hide Put, SendPiece, Flatten, SendAll;
    var q := SendPiece(line, p, address, piece).port;
    var next := address + |piece|;
    SendFirst(line, p, address, piece, rest);
    var first := Put(p.flash, address, piece);
    var x := Differing(p.flash, address, piece);
    SendKeepsBelow(line, q, next, rest, x);
    PutAt(first, next, Flatten(rest), x);
  }

  lemma SendFirst(line: Line, p: Port, address: int, piece: Bytes, rest: seq<Bytes>)
    requires SendPiece(line, p, address, piece).ok
    ensures SendAll(line, p, address, [piece] + rest)
            == SendAll(line, SendPiece(line, p, address, piece).port, address + |piece|, rest)
  {
    hide SendPiece;
    assert ([piece] + rest)[1..] == rest;
  }

  lemma Differing(f: Flash, address: int, data: Bytes) returns (x: int)
    requires Put(f, address, data) != f
    ensures address <= x < address + |data| && !(x in f && f[x] == Put(f, address, data)[x])
    ensures x in Put(f, address, data)
  {
    InPlace(f, address, data);
    x :| address <= x < address + |data| && !(x in f && f[x] == data[x - address]);
    PutAt(f, address, data, x);
  }

  lemma InPlace(f: Flash, address: int, data: Bytes)
    ensures Put(f, address, data) == f
            || exists x :: address <= x < address + |data| && !(x in f && f[x] == data[x - address])
  {
    hide Put;
    var g := Put(f, address, data);
    if forall x :: address <= x < address + |data| ==> x in f && f[x] == data[x - address] {
      forall x ensures x in g <==> x in f {
        PutAt(f, address, data, x);
      }
      forall x | x in g ensures g[x] == f[x] {
        PutAt(f, address, data, x);
      }
      assert g == f;
    }
  }

  // ----- padded chunks -----

  function Pad(chunk: Bytes): Bytes {
    chunk + Zeros((SECTOR - |chunk| % SECTOR) % SECTOR)
  }

  /** Zeros up to the next multiple of 4 KiB. */
  lemma PadMeans(chunk: Bytes)
    ensures |Pad(chunk)| % 0x1000 == 0 && |chunk| <= |Pad(chunk)| < |chunk| + 0x1000
    ensures forall i :: 0 <= i < |Pad(chunk)| ==> Pad(chunk)[i] == if i < |chunk| then chunk[i] else 0
  {
  }

  function PadAll(chunks: seq<Bytes>): (r: seq<Bytes>)
    ensures |r| == |chunks|
  {
    seq(|chunks|, i requires 0 <= i < |chunks| => Pad(chunks[i]))
  }

  function FlashAll(line: Line, p: Port, address: int, chunks: seq<Bytes>): Ending
    decreases |chunks|
  {
    if chunks == [] then Ending(true, p)
    else
      var frame := Pad(chunks[0]);
      if frame == [] then Ending(false, p)
      else
        var e := SendPiece(line, p, address, frame);
        if e.ok then FlashAll(line, e.port, address + |frame|, chunks[1..]) else e
  }

  /** An empty chunk makes the run fail; without one the padded chunks are sent. */
  lemma {:induction false} FlashSendsPadded(line: Line, p: Port, address: int, chunks: seq<Bytes>)
    ensures [] in chunks ==> !FlashAll(line, p, address, chunks).ok
    ensures [] !in chunks ==>
      FlashAll(line, p, address, chunks) == SendAll(line, p, address, PadAll(chunks))
    decreases |chunks|
  {
    hide SendPiece;
    if chunks != [] {
      var frame, rest := Pad(chunks[0]), chunks[1..];
      var e := SendPiece(line, p, address, frame);
      FlashSendsPadded(line, e.port, address + |frame|, rest);
      assert PadAll(chunks)[1..] == PadAll(rest);
      assert chunks == [chunks[0]] + rest;
    }
  }

  /** Padding every piece pads the whole: only the last piece can end inside a sector. */
  lemma {:induction false} PaddedPieces(pieces: seq<Bytes>)
    requires WholeSectors(pieces)
    ensures Flatten(PadAll(pieces)) == Pad(Flatten(pieces))
  {
    hide Pad;
    if pieces == [] {
      PadOfWhole([]);
    } else {
      var n := |pieces| - 1;
      var front, last := pieces[..n], pieces[n];
      SectorsConcat(front);
      assert PadAll(pieces)[..n] == front;
      PadAfter(Flatten(front), last);
    }
  }

  lemma PadOfWhole(chunk: Bytes)
    requires |chunk| % SECTOR == 0
    ensures Pad(chunk) == chunk
  {
  }

  lemma {:induction false} SectorsConcat(pieces: seq<Bytes>)
    requires forall k :: 0 <= k < |pieces| ==> |pieces[k]| % SECTOR == 0
    ensures |Flatten(pieces)| % SECTOR == 0 && PadAll(pieces) == pieces
  {
    forall k | 0 <= k < |pieces| ensures Pad(pieces[k]) == pieces[k] {
      PadOfWhole(pieces[k]);
    }
    if pieces != [] {
      SectorsConcat(pieces[..|pieces| - 1]);
    }
  }

  lemma PadAfter(front: Bytes, last: Bytes)
    requires |front| % SECTOR == 0
    ensures Pad(front + last) == front + Pad(last)
  {
    assert |front + last| % SECTOR == |last| % SECTOR;
  }

  // ----- when a run completes -----

  ghost predicate AllFit(address: int, pieces: seq<Bytes>)
    decreases |pieces|
  {
    pieces == [] || (Fits(address, pieces[0]) && AllFit(address + |pieces[0]|, pieces[1..]))
  }

  /** `n` requests one after the other: each is answered within eleven attempts, with only garbled ones before. */
  ghost predicate AllHeard(line: Line, from: nat, n: nat)
    decreases n
  {
    n == 0 || exists k: nat :: k <= from + MAX_RETRIES && FirstAnswer(line, from, k) && AllHeard(line, k + 1, n - 1)
  }

  lemma AnswersAgree(line: Line, from: nat, k: nat, k': nat)
    requires FirstAnswer(line, from, k) && FirstAnswer(line, from, k')
    ensures k == k'
  {
  }

  lemma FirstIsHeard(line: Line, from: nat, k: nat, until: nat)
    requires FirstAnswer(line, from, k) && k < until
    ensures Heard(line, from, until)
  {
    assert NoneSilent(line, from, k);
  }

  /** For any line: a run completes exactly if the port is open, all that is sent fits, and all requests are heard. */
  lemma {:induction false} SendCompletesIff(line: Line, p: Port, address: int, pieces: seq<Bytes>)
    ensures SendAll(line, p, address, pieces).ok <==>
      (p.open || pieces == []) && AllFit(address, pieces) && AllHeard(line, p.sent, |pieces|)
    decreases |pieces|
  {
    hide Fits, Try, Heard, FirstAnswer;
    if pieces != [] {
      var e := SendPiece(line, p, address, pieces[0]);
      if Fits(address, pieces[0]) {
        TryMeans(line, p, address, pieces[0], 0);
      }
      SendCompletesIff(line, e.port, address + |pieces[0]|, pieces[1..]);
      HeardNext(line, p, e, |pieces|);
    }
  }

  /** After an attempt for the first of `n` requests, all are heard exactly if it was and the rest are. */
  lemma HeardNext(line: Line, p: Port, e: Ending, n: nat)
    requires n > 0 && p.sent <= e.port.sent <= p.sent + MAX_RETRIES + 1
    requires e.ok ==> p.sent < e.port.sent && FirstAnswer(line, p.sent, e.port.sent - 1)
    ensures e.ok ==> (AllHeard(line, p.sent, n) <==> AllHeard(line, e.port.sent, n - 1))
    ensures AllHeard(line, p.sent, n) ==> Heard(line, p.sent, p.sent + MAX_RETRIES + 1)
  {
    hide Heard, FirstAnswer;
    if AllHeard(line, p.sent, n) {
      var k: nat :| k <= p.sent + MAX_RETRIES && FirstAnswer(line, p.sent, k) && AllHeard(line, k + 1, n - 1);
      FirstIsHeard(line, p.sent, k, p.sent + MAX_RETRIES + 1);
      if e.ok {
        AnswersAgree(line, p.sent, k, e.port.sent - 1);
      }
    }
  }

  ghost predicate HeardFrom(line: Line, k: nat) { Heard(line, k, k + MAX_RETRIES + 1) }

  /** A line that is never silent and never garbles eleven replies in a row is heard however much is sent. */
  lemma {:induction false} GarbledLineIsHeard(line: Line, from: nat, n: nat)
    requires forall k: nat :: HeardFrom(line, k)
    ensures AllHeard(line, from, n)
    decreases n
  {
    hide Heard, FirstAnswer;
    if n > 0 {
      assert HeardFrom(line, from);
      var k := TheFirst(line, from, from + MAX_RETRIES + 1);
      GarbledLineIsHeard(line, k + 1, n - 1);
    }
  }

  lemma {:induction false} TheFirst(line: Line, from: nat, until: nat) returns (k: nat)
    requires Heard(line, from, until)
    ensures k < until && FirstAnswer(line, from, k)
    decreases until - from
  {
    hide Heard, FirstAnswer;
    HeardInside(line, from, until);
    SplitHeard(line, from, until);
    if line(from).reply == Answered {
      AnswerAtOnce(line, from);
      k := from;
    } else {
      k := TheFirst(line, from + 1, until);
      AnswerAfter(line, from, k);
      ExtendAnswer(line, from, k + 1);
    }
  }

  lemma HeardInside(line: Line, from: nat, until: nat)
    requires Heard(line, from, until)
    ensures from < until
  {
  }

  lemma AnswerAfter(line: Line, from: nat, k: nat)
    requires FirstAnswer(line, from + 1, k)
    ensures from < k
  {
  }

  /** A first answer that is lost ends the run, whatever the line would do later. */
  lemma LostAnswerFails(line: Line, p: Port, address: int, pieces: seq<Bytes>)
    requires pieces != [] && line(p.sent).reply == Silent
    ensures !SendAll(line, p, address, pieces).ok
  {
    hide Try, Stored, Put;
    if Fits(address, pieces[0]) {
      TryMeans(line, p, address, pieces[0], 0);
      SplitHeard(line, p.sent, p.sent + MAX_RETRIES + 1);
    }
  }

  /** The first answer is lost; every later attempt would be stored and answered. */
  function FirstLost(k: nat): Attempt { Attempt(true, if k == 0 then Silent else Answered) }

  lemma LostAnswerExample(f: Flash, data: Bytes)
    ensures !SendAll(FirstLost, Port(f, 0, true), 0, [data]).ok
  {
    hide SendAll;
    LostAnswerFails(FirstLost, Port(f, 0, true), 0, [data]);
  }

  /** An answer that reports an error ends the attempts as well: all is sent, nothing is stored. */
  lemma {:induction false} RefusalsComplete(line: Line, p: Port, address: int, pieces: seq<Bytes>)
    requires p.open && AllFit(address, pieces) && forall k: nat :: line(k) == Attempt(false, Answered)
    ensures SendAll(line, p, address, pieces).ok && SendAll(line, p, address, pieces).port.flash == p.flash
    decreases |pieces|
  {
    if pieces != [] {
      RefusalsComplete(line, SendPiece(line, p, address, pieces[0]).port, address + |pieces[0]|, pieces[1..]);
    }
  }

  // ----- the image -----

  /** Cipher flag, length and firmware. */
  function Headed(encrypted: bool, firmware: Bytes): Bytes {
    [if encrypted then 1 else 0] + Pack(|firmware|, 4) + firmware
  }

  /** The body of an image: the firmware, or its encryption. */
  ghost predicate IsBody(body: Bytes, k: AesKeys.Keys, firmware: Bytes, aesKey: Bytes) {
    if aesKey == [] then body == firmware
    else
      && AesKeys.ValidKey(aesKey) && AesKeys.Expanded(aesKey, k) && AesCbc.Usable(k)
      && body == AesCbc.Secret(k, firmware)
  }

  /** The length that a reader finds in bytes 1 to 4 of an image. */
  function BodyLength(image: Bytes): nat
    requires |image| >= 5
  {
    Value(image[1]) + 0x100 * Value(image[2]) + 0x1_0000 * Value(image[3]) + 0x100_0000 * Value(image[4])
  }

  /**
   What goes to the flash. Without a header it is the firmware; with one it reads as a cipher flag, a length, so many
   bytes of body, and the hash of all that.
   */
  ghost predicate IsImage(image: Bytes, k: AesKeys.Keys, firmware: Bytes, aesKey: Bytes, header: bool,
                          sha256: Bytes -> Bytes)
  {
    if !header then image == firmware
    else
      && |image| >= 5 && 5 + BodyLength(image) <= |image|
      && image[0] == (if aesKey == [] then 0x00 else 0x01)
      && var end := 5 + BodyLength(image);
         IsBody(image[5..end], k, firmware, aesKey) && image[end..] == sha256(image[..end])
  }

  /** A reader finds in the header what was put there. */
  lemma HeaderReads(encrypted: bool, body: Bytes, rest: Bytes)
    requires |body| < WORD
    ensures var image := Headed(encrypted, body) + rest;
            && |image| >= 5 && image[0] == (if encrypted then 0x01 else 0x00) && BodyLength(image) == |body|
            && 5 + |body| <= |image| && image[5..5 + |body|] == body && image[..5 + |body|] == Headed(encrypted, body)
            && image[5 + |body|..] == rest
  {
    hide Value, Pack;
    var length := Pack(|body|, 4);
    WordLimit();
    UnpackPack(|body|, 4);
    FourBytes(length);
    var image := Headed(encrypted, body) + rest;
    assert image[1] == length[0] && image[2] == length[1] && image[3] == length[2] && image[4] == length[3];
  }

  /** The inputs that are written at all: a usable key and a length that fits, or an aligned address. */
  predicate Accepted(length: nat, aesKey: Bytes, offset: int, header: bool) {
    if !header then offset % SECTOR == 0
    else if aesKey == [] then length < WORD
    else AesKeys.ValidKey(aesKey) && (length + 15) / 16 * 16 < WORD
  }

  method BuildImage(firmware: Bytes, aesKey: Bytes, header: bool, sha256: Bytes -> Bytes)
    returns (r: Result<Bytes>, ghost k: AesKeys.Keys)
    ensures r.Raised? <==> header && !Accepted(|firmware|, aesKey, 0, true)
    ensures r.Ok? ==> IsImage(r.value, k, firmware, aesKey, header, sha256)
  {
    hide Headed, AesKeys.Expanded, AesCbc.Usable, AesCbc.Secret;
    k := AesKeys.Keys([], []);
    var body := firmware;
    if !header {
      return Ok(body), k;
    }
    if aesKey != [] {
      var secret;
      secret, k := AesCbc.EncryptFirmware(aesKey, firmware);
      if secret.Raised? {
        return Raised, k;
      }
      body := secret.value;
      AesCbc.SecretLength(k, firmware);
    }
    if |body| >= WORD {
      return Raised, k;
    }
    var data := Headed(aesKey != [], body);
    HeaderReads(aesKey != [], body, sha256(data));
    r := Ok(data + sha256(data));
  }

  /** What is yielded for an image: with a header the flash address is not given. */
  function ChunksOf(image: Bytes, offset: int, header: bool): seq<Bytes> {
    if header then Cuts(image, FRAME, 0)
    else Cuts(image, FRAME, offset) + (if EmptyPiece(|image|, FRAME, offset) then [[]] else [])
  }

  lemma ChunksFacts(image: Bytes, offset: int, header: bool)
    ensures [] in ChunksOf(image, offset, header) <==> !header && EmptyPiece(|image|, FRAME, offset)
    ensures [] !in ChunksOf(image, offset, header) ==>
      Flatten(PadAll(ChunksOf(image, offset, header))) == Pad(image)
  {
    hide Cuts, EmptyPiece, Pad, PadAll;
    var address := if header then 0 else offset;
    var pieces := Cuts(image, FRAME, address);
    CutsAreTheData(image, FRAME, address);
    CutsAreWholeSectors(image, FRAME, address);
    PaddedPieces(pieces);
    assert pieces + [] == pieces;
    assert [] in pieces + [[]];
  }

  /** A completed run leaves the zero-padded image in the flash, and nothing else changed, if all of it landed. */
  lemma FlashHoldsImage(line: Line, p: Port, image: Bytes, offset: int, header: bool)
    requires FlashAll(line, p, offset, ChunksOf(image, offset, header)).ok
    ensures var chunks := ChunksOf(image, offset, header);
            FlashAll(line, p, offset, chunks).port.flash == Put(p.flash, offset, Pad(image))
            <==> Landed(line, p, offset, PadAll(chunks))
  {
    hide Put, Pad, PadAll, ChunksOf, Landed;
    var chunks := ChunksOf(image, offset, header);
    ChunksFacts(image, offset, header);
    FlashSendsPadded(line, p, offset, chunks);
    SendStoresIffLanded(line, p, offset, PadAll(chunks));
  }

  /**
   For any line: a run completes exactly if the port is open, no chunk is empty, every address fits a word,
   and every request is heard.
   */
  lemma FlashCompletesIff(line: Line, p: Port, image: Bytes, offset: int, header: bool)
    ensures var chunks := ChunksOf(image, offset, header);
            FlashAll(line, p, offset, chunks).ok <==>
              && (p.open || image == []) && (header || !EmptyPiece(|image|, FRAME, offset))
              && AllFit(offset, PadAll(chunks)) && AllHeard(line, p.sent, |chunks|)
  {
    hide PadAll, ChunksOf, EmptyPiece, AllHeard, AllFit;
    var chunks := ChunksOf(image, offset, header);
    ChunksFacts(image, offset, header);
    NoChunks(image, offset, header);
    FlashSendsPadded(line, p, offset, chunks);
    SendCompletesIff(line, p, offset, PadAll(chunks));
  }

  lemma NoChunks(image: Bytes, offset: int, header: bool)
    ensures [] !in ChunksOf(image, offset, header) ==> (ChunksOf(image, offset, header) == [] <==> image == [])
  {
  }

  /** A one-sector image for the second sector: its empty chunk stops the run. */
  lemma OneSectorFails(line: Line, p: Port, image: Bytes)
    requires |image| == SECTOR
    ensures !FlashAll(line, p, SECTOR, ChunksOf(image, SECTOR, false)).ok
  {
    hide FlashAll, ChunksOf;
    ChunksFacts(image, SECTOR, false);
    FlashSendsPadded(line, p, SECTOR, ChunksOf(image, SECTOR, false));
  }

  // ----- the loader -----

  class Loader {
    const line: Line
    const crc: Bytes -> int
    var flash: Flash
    var sent: nat
    var open: bool

    constructor (line: Line, crc: Bytes -> int, flash: Flash)
      ensures this.line == line && this.crc == crc && Now() == Port(flash, 0, true)
    {
      this.line := line;
      this.crc := crc;
      this.flash := flash;
      sent := 0;
      open := true;
    }

    ghost function Now(): Port
      reads this
    {
      Port(flash, sent, open)
    }

    /** Writes a request and waits for the answer; a closed port raises, and a timeout closes it. */
    method Exchange(out: Bytes, ghost address: int, ghost data: Bytes) returns (answered: bool)
      requires Fits(address, data) && out == Request(crc, address, data)
      modifies this
      ensures Now() == Send(line, old(Now()), address, data)
      ensures answered <==> old(open) && line(old(sent)).reply == Answered
    {
      hide Put, Receive, Request, Slip.Frame;
      if !open {
        return false;
      }
      RequestIsStored(crc, flash, address, data);
      var attempt := line(sent);
      if attempt.stored {
        flash := Receive(crc, flash, Slip.Frame(out));
      }
      sent := sent + 1;
      if attempt.reply == Silent {
        open := false;
      }
      answered := attempt.reply == Answered;
    }

    /** Sends one request until it is answered, at most eleven times. */
    method Persist(out: Bytes, ghost address: int, ghost data: Bytes) returns (ok: bool)
      requires Fits(address, data) && out == Request(crc, address, data)
      modifies this
      ensures Ending(ok, Now()) == Try(line, old(Now()), address, data, 0)
    {
      hide Request, Send;
      var retries := 0;
      while true
        invariant 0 <= retries <= MAX_RETRIES
        invariant Try(line, Now(), address, data, retries) == Try(line, old(Now()), address, data, 0)
        decreases MAX_RETRIES - retries
      {
        var answered := Exchange(out, address, data);
        if !answered {
          retries := retries + 1;
          if retries > MAX_RETRIES {
            open := false;
            return false;
          }
          continue;
        }
        return true;
      }
    }

    method DumpToFlash(data: Bytes, address: int, size: Option<nat>) returns (ok: bool)
      modifies this
      ensures size == Some(0) ==> !ok && Now() == old(Now())
      ensures size != Some(0) ==>
        Ending(ok, Now()) == SendAll(line, old(Now()), address, Cuts(data, if size.None? then FRAME else size.value, 0))
    {
      hide Cuts, Request, Try;
      var n := if size.None? then FRAME else size.value;
      var pieces := Chunks(data, n, None);
      if pieces.Raised? {
        return false;
      }
      var at := address;
      ghost var p0 := Now();
      assert pieces.value[0..] == pieces.value;
      for i := 0 to |pieces.value|
        invariant SendAll(line, Now(), at, pieces.value[i..]) == SendAll(line, p0, address, pieces.value)
      {
        var chunk := pieces.value[i];
        assert pieces.value[i..][1..] == pieces.value[i + 1..];
        if !(0 <= at < WORD && |chunk| < WORD) {
          return false;
        }
        ok := Persist(Request(crc, at, chunk), at, chunk);
        if !ok {
          return;
        }
        at := at + |chunk|;
      }
      ok := true;
    }

    /** Pads the chunks to whole sectors and writes them one after the other. */
    method WriteChunks(chunks: seq<Bytes>, offset: int) returns (ok: bool)
      modifies this
      ensures Ending(ok, Now()) == FlashAll(line, old(Now()), offset, chunks)
    {
      hide SendPiece, Cuts;
      var writeLen := 0;
      ghost var p0 := Now();
      assert chunks[0..] == chunks;
      for i := 0 to |chunks|
        invariant FlashAll(line, Now(), offset + writeLen, chunks[i..]) == FlashAll(line, p0, offset, chunks)
      {
        var chunk := Pad(chunks[i]);
        assert chunks[i..][1..] == chunks[i + 1..];
        if chunk != [] {
          OnePiece(line, Now(), offset + writeLen, chunk);
        }
        ok := DumpToFlash(chunk, writeLen + offset, Some(|chunk|));
        if !ok {
          return;
        }
        writeLen := writeLen + |chunk|;
      }
      ok := true;
    }

    /** Writes a firmware, with or without the header. */
    method FlashFirmware(firmware: Bytes, aesKey: Bytes, offset: int, header: bool, sha256: Bytes -> Bytes)
      returns (ok: bool, ghost image: Bytes, ghost k: AesKeys.Keys)
      modifies this
      ensures !Accepted(|firmware|, aesKey, offset, header) ==>
        !ok && Now() == old(Now()).(open := old(open) && header && (aesKey == [] || AesKeys.ValidKey(aesKey)))
      ensures Accepted(|firmware|, aesKey, offset, header) ==>
        && IsImage(image, k, firmware, aesKey, header, sha256)
        && Ending(ok, Now()) == FlashAll(line, old(Now()), offset, ChunksOf(image, offset, header))
      ensures ok ==> (flash == Put(old(flash), offset, Pad(image))
                      <==> Landed(line, old(Now()), offset, PadAll(ChunksOf(image, offset, header))))
    {
      hide IsImage, Put, Pad, Landed, PadAll, FlashAll, Cuts, SectorAligned, EmptyPiece;
      var built;
      built, k := BuildImage(firmware, aesKey, header, sha256);
      if built.Raised? {
        image := [];
        if aesKey != [] && !AesKeys.ValidKey(aesKey) {
          open := false;
        }
        return false, image, k;
      }
      image := built.value;
      AlignedIff(FRAME, offset);
      var chunks := Chunks(built.value, FRAME, if header then None else Some(offset));
      if chunks.Raised? {
        open := false;
        return false, image, k;
      }
      assert chunks.value == ChunksOf(image, offset, header);
      ghost var p0 := Now();
      ok := WriteChunks(chunks.value, offset);
      if ok {
        FlashHoldsImage(line, p0, image, offset, header);
      }
    }
  }

  /** A piece sent with its own length as the size is one request. */
  lemma OnePiece(line: Line, p: Port, address: int, data: Bytes)
    requires data != []
    ensures SendAll(line, p, address, Cuts(data, |data|, 0)) == SendPiece(line, p, address, data)
  {
    hide SendPiece;
    ModOf(|data|, 0, 0);
    assert Cuts(data, |data|, 0) == [data];
  }
}

/**
 An SD card in SPI mode (chapter 7 of the SD Physical Layer Simplified Specification), seen byte by
 byte: what it does with a byte written to it, and which bytes it gives back. How long it takes
 for each answer is a parameter.
 */
module SdCard {
  import opened Arithmetic
  import opened ByteValues
  import opened Words

  const SECTOR := 512

  /**
   One answer: how many bytes the card stays silent or busy, the code with which it answers a set-up
   command, and the checksum bytes it sends. Delays count the bytes exchanged while the card is selected.
   */
  datatype Pace = Pace(response: nat, token: nat, accepted: nat, busy: nat, code: bv8, crc0: bv8, crc1: bv8)

  /** The pace of every answer, in order. */
  type Paces = nat -> Pace

  datatype Mode = Command(frame: Bytes) | Token(at: nat) | Data(at: nat, data: Bytes)

  /** `out` is what it still sends; then it holds the line low while it is busy; after that the line stays high. */
  datatype Card = Card(store: Bytes, standard: bool, mode: Mode, out: Bytes, busy: nat, served: nat)

  function Silence(n: nat): Bytes { seq(n, _ => 0xff) }

  /** The start of the block a command names, if the card has it. */
  predicate HasBlock(c: Card, arg: int) {
    var start := if c.standard then arg else arg * SECTOR;
    0 <= start && start + SECTOR <= |c.store|
  }

  function BlockStart(c: Card, arg: int): nat
    requires HasBlock(c, arg)
  {
    if c.standard then arg else arg * SECTOR
  }

  /** The bit of the operating conditions that tells block addresses from byte addresses. */
  function Conditions(c: Card): Bytes { [if c.standard then 0x80 else 0xc0, 0xff, 0x80, 0] }

  /** The code of a set-up answer; its top bit is always clear. */
  function Code(p: Pace): bv8 { p.code & 0x7f }

  /** What a command does; the card knows no other block length than 512. */
  function Execute(p: Pace, c: Card, cmd: bv8, arg: int): Card {
    var ready := c.(mode := Command([]), served := c.served + 1);
    var wait := Silence(p.response);
    match cmd
    case 13 => ready.(out := wait + [0, 0])
    case 16 => ready.(out := wait + [if arg == SECTOR then Code(p) else 0x40])
    case 17 =>
      if HasBlock(c, arg) then
        var at := BlockStart(c, arg);
        ready.(out := wait + [0] + (Silence(p.token) + [0xfe] + c.store[at..at + SECTOR] + [p.crc0, p.crc1]))
      else ready.(out := wait + [0x40])
    case 24 =>
      if HasBlock(c, arg) then ready.(out := wait + [0], mode := Token(BlockStart(c, arg)))
      else ready.(out := wait + [0x40])
    case 58 => ready.(out := wait + [Code(p)] + Conditions(c))
    case _ => ready.(out := wait + [0x04])
  }

  function Splice(store: Bytes, at: nat, data: Bytes): (r: Bytes)
    requires at + |data| <= |store|
    ensures |r| == |store|
  {
    store[..at] + data + store[at + |data|..]
  }

  /**
   One byte on the bus: the card takes `b` while it shows a byte. While it has something to send, or is
   busy, it does not listen.
   */
  function Input(paces: Paces, c: Card, b: bv8): Card {
    if c.out != [] then c.(out := c.out[1..])
    else if c.busy > 0 then c.(busy := c.busy - 1)
    else Listen(paces, c, b)
  }

  function Shown(c: Card): bv8 { if c.out != [] then c.out[0] else if c.busy > 0 then 0 else 0xff }

  function Listen(paces: Paces, c: Card, b: bv8): Card {
    match c.mode
    case Command(frame) =>
      if frame == [] && b & 0xc0 != 0x40 then c
      else if |frame| < 5 then c.(mode := Command(frame + [b]))
      else Execute(paces(c.served), c, frame[0] & 0x3f, UnpackHigh(frame[1..5]))
    case Token(at) => if b == 0xfe then c.(mode := Data(at, [])) else c
    case Data(at, data) =>
      if |data| < SECTOR + 1 then c.(mode := Data(at, data + [b]))
      else if at + SECTOR <= |c.store| then Program(paces, c, at, data[..SECTOR])
      else c.(mode := Command([]))
  }

  /** The block is stored; the card says so and is busy for a while. */
  function Program(paces: Paces, c: Card, at: nat, block: Bytes): Card
    requires at + |block| <= |c.store|
  {
    var p := paces(c.served);
    c.(store := Splice(c.store, at, block), mode := Command([]), served := c.served + 1,
       out := Silence(p.accepted) + [0x05], busy := p.busy)
  }

  /** The card when its select line goes up: it waits for the next command, and programming goes on. */
  function Deselect(c: Card): Card { c.(mode := Command([]), out := []) }

  function Inputs(paces: Paces, c: Card, s: Bytes): Card {
    if s == [] then c else Input(paces, Inputs(paces, c, s[..|s| - 1]), s[|s| - 1])
  }

  /** The card waits for a command, though it may still be busy. */
  predicate Waiting(c: Card) { c.mode == Command([]) && c.out == [] && |c.store| % SECTOR == 0 }

  predicate AtRest(c: Card) { Waiting(c) && c.busy == 0 }

  // ----- reading: the driver sends ones -----

  /** The card after `n` bytes were read. */
  function Polled(paces: Paces, c: Card, n: nat): Card {
    if n == 0 then c else Input(paces, Polled(paces, c, n - 1), 0xff)
  }

  /** The byte shown after `k` bytes were read. */
  function Show(paces: Paces, c: Card, k: nat): bv8 { Shown(Polled(paces, c, k)) }

  function ReadOut(paces: Paces, c: Card, n: nat): (r: Bytes)
    ensures |r| == n && forall k :: 0 <= k < n ==> r[k] == Show(paces, c, k)
  {
    if n == 0 then [] else ReadOut(paces, c, n - 1) + [Show(paces, c, n - 1)]
  }

  /** `a` less `b`, but not below zero. */
  function Less(a: nat, b: nat): nat { if a > b then a - b else 0 }

  /** What reading does to a card that no byte of ones moves on. */
  function Later(c: Card, n: nat): Card {
    c.(out := c.out[Min(n, |c.out|)..], busy := Less(c.busy, Less(n, |c.out|)))
  }

  /** Ones do not start a command, and are no token. */
  predicate Quiet(c: Card) { c.mode == Command([]) || c.mode.Token? }

  lemma {:induction false} QuietPolled(paces: Paces, c: Card, n: nat)
    requires Quiet(c)
    ensures Polled(paces, c, n) == Later(c, n)
    decreases n
  {
    hide Execute, Program;
    if n > 0 {
      QuietPolled(paces, c, n - 1);
    }
  }

  /** A quiet card shows what it has to send, then zeros while it is busy, then ones. */
  lemma QuietShow(paces: Paces, c: Card, k: nat)
    requires Quiet(c)
    ensures Show(paces, c, k) == if k < |c.out| then c.out[k] else if k < |c.out| + c.busy then 0 else 0xff
  {
    QuietPolled(paces, c, k);
  }

  lemma {:induction false} PolledJoin(paces: Paces, c: Card, a: nat, b: nat)
    ensures Polled(paces, Polled(paces, c, a), b) == Polled(paces, c, a + b)
    decreases b
  {
    hide Input;
    if b > 0 {
      PolledJoin(paces, c, a, b - 1);
    }
  }

  /** Bytes do not change the kind of the card or its size. */
  lemma {:induction false} InputKeeps(paces: Paces, c: Card, b: bv8)
    ensures var d := Input(paces, c, b); d.standard == c.standard && |d.store| == |c.store|
  {
  }

  lemma {:induction false} InputsKeep(paces: Paces, c: Card, s: Bytes)
    ensures var d := Inputs(paces, c, s); d.standard == c.standard && |d.store| == |c.store|
  {
    hide Input;
    if s != [] {
      InputsKeep(paces, c, s[..|s| - 1]);
      InputKeeps(paces, Inputs(paces, c, s[..|s| - 1]), s[|s| - 1]);
    }
  }

  lemma {:induction false} PolledKeeps(paces: Paces, c: Card, n: nat)
    ensures var d := Polled(paces, c, n); d.standard == c.standard && |d.store| == |c.store|
    decreases n
  {
    hide Input;
    if n > 0 {
      PolledKeeps(paces, c, n - 1);
      InputKeeps(paces, Polled(paces, c, n - 1), 0xff);
    }
  }

  /** Reading alone never stores anything on a card that is not taking data. */
  lemma {:induction false} ReadingStoresNothing(paces: Paces, c: Card, n: nat)
    requires !c.mode.Data?
    ensures var d := Polled(paces, c, n); !d.mode.Data? && d.store == c.store
    decreases n
  {
    if n > 0 {
      ReadingStoresNothing(paces, c, n - 1);
    }
  }

  /** A busy card hears nothing. */
  lemma {:induction false} BusyHearsNothing(paces: Paces, c: Card, s: Bytes)
    requires c.out == [] && |s| <= c.busy
    ensures Inputs(paces, c, s) == c.(busy := c.busy - |s|)
  {
    hide Listen;
    if s != [] {
      BusyHearsNothing(paces, c, s[..|s| - 1]);
    }
  }

  /** Bytes that start no command only pass the time of a card that waits for one. */
  lemma {:induction false} PlainBytes(paces: Paces, c: Card, s: Bytes)
    requires c.mode == Command([]) && forall k :: 0 <= k < |s| ==> s[k] & 0xc0 != 0x40
    ensures Inputs(paces, c, s) == Later(c, |s|)
  {
    hide Execute, Program;
    if s != [] {
      var n := |s| - 1;
      PlainBytes(paces, c, s[..n]);
    }
  }

  lemma {:induction false} InputsJoin(paces: Paces, c: Card, s: Bytes, t: Bytes)
    ensures Inputs(paces, Inputs(paces, c, s), t) == Inputs(paces, c, s + t)
  {
    hide Input;
    if t == [] {
      assert s + t == s;
    } else {
      var n := |t| - 1;
      InputsJoin(paces, c, s, t[..n]);
      assert (s + t)[..|s| + n] == s + t[..n];
    }
  }

  lemma InputsOne(paces: Paces, c: Card, b: bv8)
    ensures Inputs(paces, c, [b]) == Input(paces, c, b)
  {
    hide Input;
    assert [b][..0] == [];
  }

  /** Reading is writing ones. */
  lemma {:induction false} PollingIsWriting(paces: Paces, c: Card, s: Bytes, n: nat)
    ensures Polled(paces, Inputs(paces, c, s), n) == Inputs(paces, c, s + Silence(n))
    decreases n
  {
    hide Input;
    if n == 0 {
      assert s + Silence(0) == s;
    } else {
      PollingIsWriting(paces, c, s, n - 1);
      assert s + Silence(n) == (s + Silence(n - 1)) + [0xff];
      InputsStep(paces, c, s + Silence(n - 1), 0xff);
    }
  }

  // ----- what a command frame does -----

  function Frame(cmd: bv8, arg: int, crc: bv8): Bytes {
    [cmd | 0x40] + PackHigh(arg, 4) + [crc]
  }

  /** The bytes of a command: its number below the start bits, the argument from the highest byte down, the checksum. */
  lemma FrameBytes(cmd: bv8, arg: int, crc: bv8)
    requires 0 <= arg < WORD
    ensures var f := Frame(cmd, arg, crc);
            && |f| == 6 && f[0] == 0x40 | cmd && f[5] == crc
            && arg == 0x100_0000 * Value(f[1]) + 0x1_0000 * Value(f[2]) + 0x100 * Value(f[3]) + Value(f[4])
  {
    hide PackHigh, UnpackHigh, Value;
    WordLimit();
    UnpackPackHigh(arg, 4);
    FourBytesHigh(PackHigh(arg, 4));
  }

  lemma CommandBits(cmd: bv8)
    requires cmd < 64
    ensures (cmd | 0x40) & 0xc0 == 0x40 && (cmd | 0x40) & 0x3f == cmd
  {
  }

  lemma InputsStep(paces: Paces, c: Card, s: Bytes, b: bv8)
    ensures Inputs(paces, c, s + [b]) == Input(paces, Inputs(paces, c, s), b)
  {
    hide Input;
    assert (s + [b])[..|s|] == s;
  }

  /** The first bytes of a frame are collected. */
  lemma {:induction false} Collecting(paces: Paces, c: Card, s: Bytes)
    requires c.mode == Command([]) && c.out == [] && c.busy == 0 && 0 < |s| <= 5 && s[0] & 0xc0 == 0x40
    ensures Inputs(paces, c, s) == c.(mode := Command(s))
  {
    hide Execute;
    var n := |s| - 1;
    assert s == s[..n] + [s[n]];
    if n == 0 {
      assert s[..0] == [];
      assert Inputs(paces, c, []) == c;
    } else {
      Collecting(paces, c, s[..n]);
    }
  }

  /** A command frame is executed. */
  lemma FrameExecutes(paces: Paces, c: Card, cmd: bv8, arg: int, crc: bv8)
    requires c.mode == Command([]) && c.out == [] && c.busy == 0 && cmd < 64 && 0 <= arg < WORD
    ensures Inputs(paces, c, Frame(cmd, arg, crc)) == Execute(paces(c.served), c, cmd, arg)
  {
    hide Execute, PackHigh, UnpackHigh, Limit, Inputs;
    CommandBits(cmd);
    var first := [cmd | 0x40] + PackHigh(arg, 4);
    Collecting(paces, c, first);
    InputsStep(paces, c, first, crc);
    WordLimit();
    UnpackPackHigh(arg, 4);
    assert first[1..5] == PackHigh(arg, 4);
    ExecuteMode(paces(c.served), c, first, cmd, arg);
  }

  lemma ExecuteMode(p: Pace, c: Card, frame: Bytes, cmd: bv8, arg: int)
    requires c.mode == Command([])
    ensures Execute(p, c.(mode := Command(frame)), cmd, arg) == Execute(p, c, cmd, arg)
  {
    hide Silence, Zeros;
  }

  /**
   A command frame sent to a busy card: none of the six bytes is heard if it stays busy for them, and a
   status request is not executed however soon the card gets ready.
   */
  lemma FrameIsMissed(paces: Paces, c: Card, cmd: bv8, arg: int, crc: bv8)
    requires c.mode == Command([]) && c.out == [] && c.busy > 0
    requires c.busy >= 6 || (arg == 0 && crc == 0)
    ensures Inputs(paces, c, Frame(cmd, arg, crc)) == c.(busy := Less(c.busy, 6))
  {
    hide Input, Inputs;
    var s := Frame(cmd, arg, crc);
    if c.busy >= 6 {
      BusyHearsNothing(paces, c, s);
    } else {
      InputsJoin(paces, c, [s[0]], s[1..]);
      assert [s[0]] + s[1..] == s;
      InputsOne(paces, c, s[0]);
      BusyInput(paces, c, s[0]);
      ZeroArgument();
      PlainBytes(paces, c.(busy := c.busy - 1), s[1..]);
    }
  }

  lemma BusyInput(paces: Paces, c: Card, b: bv8)
    requires c.out == [] && c.busy > 0
    ensures Input(paces, c, b) == c.(busy := c.busy - 1)
  {
  }

  lemma ZeroArgument()
    ensures PackHigh(0, 4) == [0, 0, 0, 0]
  {
    assert Low(0) == 0;
    assert PackHigh(0, 1) == [0] && PackHigh(0, 2) == [0, 0] && PackHigh(0, 3) == [0, 0, 0];
  }

  /** A frame that a busy card hears only in part executes nothing while it is sent. */
  lemma {:induction false} PartOfFrame(paces: Paces, c: Card, s: Bytes)
    requires c.mode == Command([]) && c.out == [] && |s| <= c.busy + 5
    ensures var d := Inputs(paces, c, s);
            && d == c.(mode := d.mode, busy := Less(c.busy, |s|))
            && d.mode.Command? && |d.mode.frame| <= Less(|s|, c.busy)
  {
    hide Execute, Program;
    if s != [] {
      PartOfFrame(paces, c, s[..|s| - 1]);
    }
  }

  // ----- what a data block does -----

  /** Bytes without a token leave the card waiting for one. */
  lemma {:induction false} NoToken(paces: Paces, c: Card, s: Bytes)
    requires c.mode.Token? && c.out == [] && c.busy == 0 && 0xfe !in s
    ensures Inputs(paces, c, s) == c
  {
    if s != [] {
      var n := |s| - 1;
      assert s[n] in s;
      NoToken(paces, c, s[..n]);
    }
  }

  /** What is sent while the card still has something to send is not heard. */
  lemma {:induction false} Unheard(paces: Paces, c: Card, s: Bytes)
    requires |s| <= |c.out|
    ensures Inputs(paces, c, s) == c.(out := c.out[|s|..])
  {
    hide Listen;
    if s != [] {
      var n := |s| - 1;
      Unheard(paces, c, s[..n]);
      assert c.out[n..][1..] == c.out[|s|..];
    }
  }

  lemma {:induction false} DataCollects(paces: Paces, c: Card, at: nat, s: Bytes)
    requires c.mode == Data(at, []) && c.out == [] && c.busy == 0 && |s| <= SECTOR + 1
    ensures Inputs(paces, c, s) == c.(mode := Data(at, s))
  {
    hide Execute, Program;
    if s != [] {
      var n := |s| - 1;
      DataCollects(paces, c, at, s[..n]);
      assert s == s[..n] + [s[n]];
    }
  }

  /** Half a kilobyte and two bytes of checksum are stored as a block. */
  lemma BlockStored(paces: Paces, c: Card, at: nat, s: Bytes)
    requires c.mode == Data(at, []) && c.out == [] && c.busy == 0 && |s| == SECTOR + 2 && at + SECTOR <= |c.store|
    ensures Inputs(paces, c, s) == Program(paces, c, at, s[..SECTOR])
  {
    hide Inputs, Program, Execute;
    var front, last := s[..SECTOR + 1], s[SECTOR + 1];
    DataCollects(paces, c, at, front);
    assert s == front + [last];
    InputsStep(paces, c, front, last);
    assert front[..SECTOR] == s[..SECTOR];
    ProgramMode(paces, c, at, front, s[..SECTOR]);
  }

  lemma ProgramMode(paces: Paces, c: Card, at: nat, data: Bytes, block: Bytes)
    requires at + |block| <= |c.store|
    ensures Program(paces, c.(mode := Data(at, data)), at, block) == Program(paces, c.(mode := Data(at, [])), at, block)
  {
  }
}

/**
 Sending a buffer through the 32-entry transmit queue of the SPI controller. Between any two register
 accesses some entries leave the queue; how many is a parameter.
 */
module Spi {
  import opened Arithmetic
  import opened Sequences
  import opened ByteValues
  import opened Words

  const DEPTH := 32

  /** How many entries leave before each register access, at most. */
  type Drain = nat -> nat

  /** The frames that have left, those in the queue, and the number of register accesses. */
  datatype Device = Device(wire: seq<int>, fifo: seq<int>, clock: nat)

  function Access(drain: Drain, d: Device): (e: Device)
    ensures Pushed(e) == Pushed(d) && |e.fifo| <= |d.fifo| && e.clock == d.clock + 1
  {
    var n := Min(drain(d.clock), |d.fifo|);
    assert d.fifo == d.fifo[..n] + d.fifo[n..];
    Device(d.wire + d.fifo[..n], d.fifo[n..], d.clock + 1)
  }

  function Push(drain: Drain, d: Device, frame: int): Device {
    var e := Access(drain, d);
    e.(fifo := e.fifo + [frame])
  }

  function PushAll(drain: Drain, d: Device, frames: seq<int>): Device {
    if frames == [] then d else Push(drain, PushAll(drain, d, frames[..|frames| - 1]), frames[|frames| - 1])
  }

  /** All that was ever pushed, in order. */
  function Pushed(d: Device): seq<int> { d.wire + d.fifo }

  lemma {:induction false} PushAllMeans(drain: Drain, d: Device, frames: seq<int>)
    ensures var e := PushAll(drain, d, frames);
            && Pushed(e) == Pushed(d) + frames && |e.fifo| <= |d.fifo| + |frames|
            && e.clock == d.clock + |frames|
  {
    if frames != [] {
      var n := |frames| - 1;
      PushAllMeans(drain, d, frames[..n]);
      var c := PushAll(drain, d, frames[..n]);
      var e := Access(drain, c);
      Assoc(e.wire, e.fifo, [frames[n]]);
      Assoc(Pushed(d), frames[..n], [frames[n]]);
      assert frames[..n] + [frames[n]] == frames;
    } else {
      assert Pushed(d) + [] == Pushed(d);
    }
  }

  // ----- frames -----

  /** The number of bytes in a frame. */
  function FrameSize(bits: nat): nat { if bits < 8 then 1 else if bits < 16 then 2 else 4 }

  predicate IsWidth(w: nat) { w == 1 || w == 2 || w == 4 }

  /** The control register holds the bit length less one; the frame is the narrowest that holds so many bits. */
  lemma FrameHoldsBits(length: nat)
    requires 1 <= length <= 32
    ensures var w := FrameSize(length - 1);
            IsWidth(w) && length <= 8 * w && forall v: nat :: IsWidth(v) && length <= 8 * v ==> w <= v
  {
  }

  predicate Whole(n: int, w: nat)
    requires IsWidth(w)
  {
    n % w == 0
  }

  lemma WholeIs(n: int, w: nat)
    requires IsWidth(w)
    ensures Whole(n, w) <==> w == 1 || (w == 2 && n % 2 == 0) || (w == 4 && n % 4 == 0)
  {
  }

  lemma WholeStep(n: int, w: nat)
    requires IsWidth(w)
    ensures Whole(n + w, w) <==> Whole(n, w)
    ensures n > 0 && Whole(n, w) ==> n >= w
    ensures Whole(0, w)
  {
    hide Whole;
    WholeIs(n, w);
    WholeIs(n + w, w);
    WholeIs(0, w);
  }

  lemma WholeSum(a: int, b: int, w: nat)
    requires IsWidth(w) && Whole(a, w)
    ensures Whole(a + b, w) <==> Whole(b, w)
  {
    hide Whole;
    WholeIs(a, w);
    WholeIs(b, w);
    WholeIs(a + b, w);
  }

  /** The buffer as little-endian frames. */
  function Frames(s: Bytes, w: nat): (r: seq<int>)
    requires IsWidth(w) && Whole(|s|, w)
    ensures |r| <= |s|
    decreases |s|
  {
    if s == [] then [] else
      var n := |s| - w;
      WholeStep(n, w);
      Frames(s[..n], w) + [Unpack(s[n..])]
  }

  /** The number that the bytes of one frame make, the lowest first. */
  function FrameValue(s: Bytes): int
    requires |s| == 1 || |s| == 2 || |s| == 4
  {
    if |s| == 1 then Value(s[0])
    else if |s| == 2 then Value(s[0]) + 0x100 * Value(s[1])
    else Value(s[0]) + 0x100 * Value(s[1]) + 0x1_0000 * Value(s[2]) + 0x100_0000 * Value(s[3])
  }

  lemma FrameUnpacks(s: Bytes)
    requires |s| == 1 || |s| == 2 || |s| == 4
    ensures Unpack(s) == FrameValue(s)
  {
    hide Value;
    if |s| == 4 {
      FourBytes(s);
    } else if |s| == 2 {
      assert s[1..][1..] == [];
      assert Unpack(s[1..]) == Value(s[1]);
    }
  }

  /** Frame number `k` is made of the bytes at `k` times the width. */
  lemma {:induction false} FramesAre(s: Bytes, w: nat, k: nat)
    requires IsWidth(w) && Whole(|s|, w)
    ensures |Frames(s, w)| * w == |s|
    ensures k < |Frames(s, w)| ==> k * w + w <= |s| && Frames(s, w)[k] == FrameValue(s[k * w..k * w + w])
    decreases |s|
  {
    hide Whole, Unpack, FrameValue, Frames;
    if s == [] {
      FramesNone(w);
    } else {
      var front, last := LastFrame(s, w);
      FramesAre(front, w, k);
      FramesSnoc(front, last, w);
      FrameUnpacks(last);
      var n := |Frames(front, w)|;
      NextNumber(n, w);
      if k < n {
        Below(k, n, w);
        assert s[k * w..k * w + w] == front[k * w..k * w + w];
      } else if k == n {
        assert s[k * w..k * w + w] == last;
      }
    }
  }

  lemma {:induction false} Below(k: nat, n: nat, w: nat)
    requires k < n
    ensures k * w + w <= n * w
  {
    NextNumber(n - 1, w);
    if k < n - 1 {
      Below(k, n - 1, w);
    }
  }

  lemma FramesNone(w: nat)
    requires IsWidth(w)
    ensures Whole(0, w) && Frames([], w) == []
  {
  }

  lemma FramesSnoc(s: Bytes, last: Bytes, w: nat)
    requires IsWidth(w) && Whole(|s|, w) && |last| == w
    ensures Whole(|s + last|, w) && Frames(s + last, w) == Frames(s, w) + [Unpack(last)]
  {
    hide Whole, Unpack;
    WholeStep(|s|, w);
    assert (s + last)[..|s|] == s && (s + last)[|s|..] == last;
  }

  lemma {:induction false} FramesConcat(s: Bytes, t: Bytes, w: nat)
    requires IsWidth(w) && Whole(|s|, w) && Whole(|t|, w)
    ensures Whole(|s + t|, w) && Frames(s + t, w) == Frames(s, w) + Frames(t, w)
    decreases |t|
  {
    hide Whole, Unpack, Frames;
    if t == [] {
      FramesNone(w);
      assert s + t == s;
      assert Frames(s, w) + [] == Frames(s, w);
    } else {
      var front, last := LastFrame(t, w);
      FramesConcat(s, front, w);
      FramesConcatStep(s, front, last, w);
    }
  }

  lemma LastFrame(t: Bytes, w: nat) returns (front: Bytes, last: Bytes)
    requires IsWidth(w) && Whole(|t|, w) && t != []
    ensures t == front + last && Whole(|front|, w) && |last| == w && |front| < |t|
  {
    hide Whole;
    WholeStep(|t|, w);
    var n := |t| - w;
    WholeStep(n, w);
    front, last := t[..n], t[n..];
  }

  lemma FramesConcatStep(s: Bytes, front: Bytes, last: Bytes, w: nat)
    requires IsWidth(w) && Whole(|s|, w) && Whole(|front|, w) && |last| == w
    requires Whole(|s + front|, w) && Frames(s + front, w) == Frames(s, w) + Frames(front, w)
    ensures Whole(|front + last|, w) && Whole(|s + (front + last)|, w)
    ensures Frames(s + (front + last), w) == Frames(s, w) + Frames(front + last, w)
  {
    hide Whole, Unpack, Frames;
    FramesSnoc(front, last, w);
    FramesSnoc(s + front, last, w);
    Assoc(s, front, last);
    Assoc(Frames(s, w), Frames(front, w), [Unpack(last)]);
  }

  // ----- rounds -----

  /** The controller, and how much of the buffer has been handed over. */
  datatype Progress = Progress(device: Device, pos: nat)

  /** How many bytes a round hands over when the queue holds `level` entries. */
  function Room(level: int, left: int, w: nat): int
    requires IsWidth(w)
  {
    Min(DEPTH - level, left) / w * w
  }

  lemma RoomMeans(level: int, left: int, w: nat)
    requires IsWidth(w) && 0 <= level <= DEPTH && 0 <= left
    ensures 0 <= Room(level, left, w) <= left && Whole(Room(level, left, w), w)
    ensures level + Room(level, left, w) <= 32
    ensures level + Room(level, left, w) + w > 32 || Room(level, left, w) + w > left
    ensures level == 0 && left >= w ==> Room(level, left, w) > 0
    ensures left < w ==> Room(level, left, w) == 0
  {
    hide Whole;
    var m := Min(32 - level, left);
    RoundDown(m, w);
  }

  lemma RoundDown(m: nat, w: nat)
    requires IsWidth(w)
    ensures 0 <= m / w * w <= m < m / w * w + w && Whole(m / w * w, w)
  {
    if w == 1 {} else if w == 2 {} else {}
  }

  predicate Legal(tx: Bytes, w: nat, s: Progress) {
    IsWidth(w) && s.pos <= |tx| && Whole(s.pos, w) && |s.device.fifo| <= DEPTH
  }

  /** The bytes that the next round hands over. */
  function Handed(drain: Drain, tx: Bytes, w: nat, s: Progress): (n: int)
    requires Legal(tx, w, s)
    ensures 0 <= n <= |tx| - s.pos && Whole(n, w) && Whole(s.pos + n, w)
  {
    hide Whole, Room;
    var d := Access(drain, s.device);
    RoomMeans(|d.fifo|, |tx| - s.pos, w);
    var n := Room(|d.fifo|, |tx| - s.pos, w);
    WholeSum(s.pos, n, w);
    n
  }

  /** Reads the level, then hands over what there is room for. */
  function Round(drain: Drain, tx: Bytes, w: nat, s: Progress): Progress
    requires Legal(tx, w, s)
  {
    var n := Handed(drain, tx, w, s);
    Progress(PushAll(drain, Access(drain, s.device), Frames(tx[s.pos..s.pos + n], w)), s.pos + n)
  }

  /** A round keeps the queue within its depth, and pushes the next frames in order. */
  lemma RoundMeans(drain: Drain, tx: Bytes, w: nat, s: Progress)
    requires Legal(tx, w, s)
    ensures var t := Round(drain, tx, w, s);
            var n := Handed(drain, tx, w, s);
            && Legal(tx, w, t) && t.pos == s.pos + n && s.device.clock < t.device.clock
            && Pushed(t.device) == Pushed(s.device) + Frames(tx[s.pos..s.pos + n], w)
  {
    hide Handed, Whole, PushAll, Frames;
    var n := Handed(drain, tx, w, s);
    HandedFits(drain, tx, w, s);
    PushAllMeans(drain, Access(drain, s.device), Frames(tx[s.pos..s.pos + n], w));
  }

  lemma HandedFits(drain: Drain, tx: Bytes, w: nat, s: Progress)
    requires Legal(tx, w, s)
    ensures |Access(drain, s.device).fifo| + Handed(drain, tx, w, s) <= DEPTH
  {
    hide Room, Whole;
    RoomMeans(|Access(drain, s.device).fifo|, |tx| - s.pos, w);
  }

  function Rounds(drain: Drain, tx: Bytes, w: nat, s: Progress, n: nat): (t: Progress)
    requires Legal(tx, w, s)
    ensures Legal(tx, w, t)
    decreases n
  {
    if n == 0 then s
    else
      var t := Rounds(drain, tx, w, s, n - 1);
      RoundMeans(drain, tx, w, t);
      Round(drain, tx, w, t)
  }

  /** Whatever the levels, the frames of the buffer's front are pushed, once and in order. */
  lemma {:induction false} RoundsPushInOrder(drain: Drain, tx: Bytes, w: nat, s: Progress, n: nat)
    requires Legal(tx, w, s) && s.pos == 0
    ensures var t := Rounds(drain, tx, w, s, n);
            Pushed(t.device) == Pushed(s.device) + Frames(tx[..t.pos], w)
  {
    hide Round, Pushed, Whole, Handed, Frames, IsWidth;
    if n == 0 {
      FramesNone(w);
      assert tx[..0] == [];
      assert Pushed(s.device) + [] == Pushed(s.device);
    } else {
      RoundsPushInOrder(drain, tx, w, s, n - 1);
      var t := Rounds(drain, tx, w, s, n - 1);
      var end := t.pos + Handed(drain, tx, w, t);
      RoundMeans(drain, tx, w, t);
      assert tx[..end] == tx[..t.pos] + tx[t.pos..end];
      FramesConcat(tx[..t.pos], tx[t.pos..end], w);
      Assoc(Pushed(s.device), Frames(tx[..t.pos], w), Frames(tx[t.pos..end], w));
    }
  }

  /** The queue keeps draining. */
  ghost predicate Draining(drain: Drain) { forall k: nat :: DrainsAfter(drain, k) }

  ghost predicate DrainsAfter(drain: Drain, k: nat) { exists m: nat :: k <= m && drain(m) > 0 }

  /** A round without room leaves a shorter queue, or comes closer to the next draining access. */
  lemma RoundProgress(drain: Drain, tx: Bytes, w: nat, s: Progress, m: nat)
    requires Legal(tx, w, s) && s.pos < |tx| && Whole(|tx|, w) && s.device.clock <= m && drain(m) > 0
    ensures var t := Round(drain, tx, w, s);
            || t.pos > s.pos
            || (t.pos == s.pos && |t.device.fifo| < |s.device.fifo|)
            || (t.pos == s.pos && |t.device.fifo| == |s.device.fifo|
                && t.device.clock <= m && s.device.clock < t.device.clock)
  {
    hide Handed, Whole, Access, PushAll, Frames;
    var left := |tx| - s.pos;
    assert left >= w by {
      WholeSum(s.pos, left, w);
      WholeStep(left, w);
    }
    if Handed(drain, tx, w, s) == 0 {
      FullQueue(drain, tx, w, s);
      EmptyRound(drain, tx, w, s);
      AccessDrains(drain, s.device);
    }
  }

  /** Nothing is handed over of a whole frame only if the queue is not empty. */
  lemma FullQueue(drain: Drain, tx: Bytes, w: nat, s: Progress)
    requires Legal(tx, w, s) && |tx| - s.pos >= w && Handed(drain, tx, w, s) == 0
    ensures |Access(drain, s.device).fifo| > 0
  {
    hide Room, Whole;
    RoomMeans(|Access(drain, s.device).fifo|, |tx| - s.pos, w);
  }

  lemma EmptyRound(drain: Drain, tx: Bytes, w: nat, s: Progress)
    requires Legal(tx, w, s) && Handed(drain, tx, w, s) == 0
    ensures Round(drain, tx, w, s) == Progress(Access(drain, s.device), s.pos)
  {
    hide Handed, Whole, Access, Frames;
    FramesNone(w);
    assert tx[s.pos..s.pos] == [];
  }

  lemma AccessDrains(drain: Drain, d: Device)
    ensures drain(d.clock) > 0 && |d.fifo| > 0 ==> |Access(drain, d).fifo| < |d.fifo|
  {
  }

  /** With a buffer of whole frames and a draining queue the loop ends. */
  lemma RoundsFinish(drain: Drain, tx: Bytes, w: nat, s: Progress) returns (n: nat)
    requires Legal(tx, w, s) && Whole(|tx|, w) && Draining(drain)
    ensures Rounds(drain, tx, w, s, n).pos == |tx|
  {
    hide Round, Whole;
    n := 0;
    var t := s;
    assert DrainsAfter(drain, t.device.clock);
    var m: nat :| t.device.clock <= m && drain(m) > 0;
    while t.pos < |tx|
      invariant Legal(tx, w, t) && t == Rounds(drain, tx, w, s, n)
      invariant t.device.clock <= m && drain(m) > 0
      decreases |tx| - t.pos, |t.device.fifo|, m - t.device.clock
    {
      RoundMeans(drain, tx, w, t);
      RoundProgress(drain, tx, w, t, m);
      t := Round(drain, tx, w, t);
      n := n + 1;
      if t.device.clock > m {
        assert DrainsAfter(drain, t.device.clock);
        m :| t.device.clock <= m && drain(m) > 0;
      }
    }
  }

  /** Sending ends exactly for buffers of whole frames. */
  lemma SendEndsIff(drain: Drain, tx: Bytes, w: nat, s: Progress)
    requires Legal(tx, w, s) && Draining(drain)
    ensures (exists n: nat :: Rounds(drain, tx, w, s, n).pos == |tx|) <==> Whole(|tx|, w)
  {
    hide Rounds, Whole, Draining;
    if Whole(|tx|, w) {
      var n := RoundsFinish(drain, tx, w, s);
    }
  }

  // ----- the loops -----

  class Controller {
    const drain: Drain
    var device: Device

    constructor (drain: Drain, device: Device)
      ensures this.drain == drain && this.device == device
    {
      this.drain := drain;
      this.device := device;
    }

    method Level() returns (level: int)
      modifies this
      ensures device == Access(drain, old(device)) && level == |device.fifo|
    {
      device := Access(drain, device);
      level := |device.fifo|;
    }

    /** Writes the data register; the queue keeps the low bytes of the frame width and has an entry free. */
    method Write(value: int, w: nat)
      requires IsWidth(w) && |device.fifo| < DEPTH
      modifies this
      ensures device == Push(drain, old(device), value % Limit(w))
    {
      device := Push(drain, device, value % Limit(w));
    }

    /** Copies each frame into a local word, whose other bytes are stale, and writes that. */
    method WriteCopied(tx: Bytes, start: nat, n: nat, w: nat, stale: Bytes) returns (i: nat)
      requires IsWidth(w) && Whole(n, w) && start + n <= |tx| && |device.fifo| + n <= DEPTH && |stale| == 4
      modifies this
      ensures device == PushAll(drain, old(device), Frames(tx[start..start + n], w)) && i == start + n
    {
      hide Push, PushAll, Unpack, Whole, Limit, Frames;
      ghost var d, s := device, tx[start..start + n];
      var word := stale;
      var index := 0;
      i := start;
      NoFrames(drain, d, s, w);
      while index < n
        invariant 0 <= index <= n && i == start + index && |word| == 4 && Whole(index, w)
        invariant device == PushAll(drain, d, Frames(s[..index], w))
      {
        NextFrame(drain, d, s, w, index);
        ghost var frame := s[index..index + w];
        word := tx[i..i + w] + word[w..];
        Within(tx, start, n, index, w);
        UnpackLow(frame, word[w..]);
        Write(Unpack(word), w);
        index, i := index + w, i + w;
      }
      assert s[..n] == s;
    }

    /** Writes the frames of an aligned buffer, by their numbers. */
    method WriteAligned(tx: Bytes, first: nat, n: nat, w: nat) returns (i: nat)
      requires IsWidth(w) && Whole(n, w) && first * w + n <= |tx| && |device.fifo| + n <= DEPTH
      modifies this
      ensures device == PushAll(drain, old(device), Frames(tx[first * w..first * w + n], w))
      ensures i * w == first * w + n
    {
      hide Push, PushAll, Unpack, Whole, Limit, Frames;
      ghost var start := first * w;
      ghost var d, s, off := device, tx[start..start + n], 0;
      i := first;
      var index := 0;
      NoFrames(drain, d, s, w);
      WholeCount(n, w);
      while index < n / w
        invariant 0 <= index <= n / w && i == first + index
        invariant off == index * w && i * w == start + off && 0 <= off <= n && Whole(off, w)
        invariant device == PushAll(drain, d, Frames(s[..off], w))
      {
        FrameNumber(n, w, index);
        NextNumber(i, w);
        NextFrame(drain, d, s, w, off);
        ghost var frame := s[off..off + w];
        Within(tx, start, n, off, w);
        UnpackLow(frame, []);
        assert frame + [] == frame;
        Write(Unpack(tx[i * w..i * w + w]), w);
        index, i, off := index + 1, i + 1, off + w;
      }
      assert s[..n] == s;
    }

    /** One round of the loop: the aligned and the copying branch push the same frames. */
    method SendRound(tx: Bytes, w: nat, misaligned: bool, stale: Bytes, i: nat, ghost pos: nat)
      returns (j: nat, sent: nat)
      requires Legal(tx, w, Progress(device, pos)) && |stale| == 4
      requires pos == if misaligned then i else i * w
      modifies this
      ensures Progress(device, pos + sent) == Round(drain, tx, w, Progress(old(device), pos))
      ensures Legal(tx, w, Progress(device, pos + sent))
      ensures pos + sent == if misaligned then j else j * w
    {
      hide Whole, PushAll, Frames, Room, Access;
      RoundMeans(drain, tx, w, Progress(device, pos));
      ghost var d := Access(drain, device);
      RoomMeans(|d.fifo|, |tx| - pos, w);
      var level := Level();
      var left := |tx| - (if misaligned then i else i * w);
      sent := Room(level, left, w);
      if misaligned {
        j := WriteCopied(tx, i, sent, w, stale);
      } else {
        j := WriteAligned(tx, i, sent, w);
      }
    }

    /** Waits until the queue is empty. */
    method Flush()
      requires Draining(drain)
      modifies this
      ensures device.fifo == [] && Pushed(device) == old(Pushed(device))
    {
      assert DrainsAfter(drain, device.clock);
      ghost var m: nat :| device.clock <= m && drain(m) > 0;
      var level := |device.fifo|;
      while level != 0
        invariant level == |device.fifo| && Pushed(device) == old(Pushed(device))
        invariant device.clock <= m && drain(m) > 0
        decreases level, m - device.clock
      {
        level := Level();
        if device.clock > m {
          assert DrainsAfter(drain, device.clock);
          m :| device.clock <= m && drain(m) > 0;
        }
      }
    }

    /** Sends a buffer of whole frames: they leave in order, after what was in the queue. */
    method SendData(bits: nat, base: nat, tx: Bytes, stale: Bytes)
      requires |device.fifo| <= DEPTH && Draining(drain) && |stale| == 4
      requires Whole(|tx|, FrameSize(bits)) && |tx| < WORD
      modifies this
      ensures device.fifo == [] && device.wire == old(Pushed(device)) + Frames(tx, FrameSize(bits))
    {
      hide Round, Whole, Frames, Draining;
      var w := FrameSize(bits);
      var misaligned := base % w != 0;
      ghost var s0 := Progress(device, 0);
      WholeStep(0, w);
      ghost var n := RoundsFinish(drain, tx, w, s0);
      ghost var k := 0;
      var left, i := |tx|, 0;
      while left != 0
        invariant 0 <= left <= |tx| && k <= n
        invariant Progress(device, |tx| - left) == Rounds(drain, tx, w, s0, k)
        invariant |tx| - left == if misaligned then i else i * w
        decreases n - k
      {
        var sent;
        i, sent := SendRound(tx, w, misaligned, stale, i, |tx| - left);
        left := left - sent;
        k := k + 1;
      }
      RoundsPushInOrder(drain, tx, w, s0, k);
      assert tx[..|tx|] == tx;
      Flush();
      assert device.wire + [] == device.wire;
    }
  }

  lemma Within(tx: Bytes, start: nat, n: nat, index: nat, w: nat)
    requires start + n <= |tx| && index + w <= n
    ensures tx[start..start + n][index..index + w] == tx[start + index..start + index + w]
  {
    var a, b := tx[start..start + n][index..index + w], tx[start + index..start + index + w];
    forall k | 0 <= k < w ensures a[k] == b[k] {
    }
  }

  lemma WholeCount(n: nat, w: nat)
    requires IsWidth(w) && Whole(n, w)
    ensures n / w * w == n
  {
  }

  lemma FrameNumber(n: nat, w: nat, index: nat)
    requires IsWidth(w) && index < n / w
    ensures index * w < n && (index + 1) * w == index * w + w
  {
  }

  lemma NextNumber(i: nat, w: nat)
    ensures (i + 1) * w == i * w + w
  {
  }

  lemma NoFrames(drain: Drain, d: Device, s: Bytes, w: nat)
    requires IsWidth(w)
    ensures Whole(0, w) && d == PushAll(drain, d, Frames(s[..0], w))
  {
    assert s[..0] == [];
  }

  /** One more frame of a stretch that the queue has room for. */
  lemma NextFrame(drain: Drain, d: Device, s: Bytes, w: nat, index: nat)
    requires IsWidth(w) && Whole(index, w) && Whole(|s|, w) && index < |s| && |d.fifo| + |s| <= DEPTH
    ensures index + w <= |s| && Whole(index + w, w)
    ensures var c := PushAll(drain, d, Frames(s[..index], w));
            && |c.fifo| < DEPTH
            && PushAll(drain, d, Frames(s[..index + w], w)) == Push(drain, c, Unpack(s[index..index + w]))
  {
    hide Whole, Unpack, Push, PushAll, Frames;
    WholeSum(index, |s| - index, w);
    WholeStep(|s| - index, w);
    WholeStep(index, w);
    FramesSnoc(s[..index], s[index..index + w], w);
    assert s[..index] + s[index..index + w] == s[..index + w];
    var frames := Frames(s[..index], w);
    PushAllMeans(drain, d, frames);
    PushAllSnoc(drain, d, frames, Unpack(s[index..index + w]));
  }

  lemma PushAllSnoc(drain: Drain, d: Device, frames: seq<int>, frame: int)
    ensures PushAll(drain, d, frames + [frame]) == Push(drain, PushAll(drain, d, frames), frame)
  {
    hide Push;
    assert (frames + [frame])[..|frames|] == frames;
  }
}

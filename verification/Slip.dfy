/** SLIP framing (the PROTOCOL section of RFC 1055) as the flashing tool writes and reads it. */
module Slip {
  import opened Results
  import opened Sequences
  import opened Words

  const END: bv8 := 0xc0
  const ESC: bv8 := 0xdb
  const ESC_END: bv8 := 0xdc
  const ESC_ESC: bv8 := 0xdd

  // ----- writing -----

  /** Every occurrence of one byte replaced. */
  function Replace(s: Bytes, b: bv8, rep: Bytes): Bytes {
    if s == [] then [] else (if s[0] == b then rep else [s[0]]) + Replace(s[1..], b, rep)
  }

  /** A packet as it is written: two replacement passes between two end marks. */
  function Frame(packet: Bytes): Bytes {
    [END] + Replace(Replace(packet, ESC, [ESC, ESC_ESC]), END, [ESC, ESC_END]) + [END]
  }

  function EscapeByte(b: bv8): Bytes {
    if b == END then [ESC, ESC_END] else if b == ESC then [ESC, ESC_ESC] else [b]
  }

  /** The escaping of RFC 1055, one byte at a time. */
  function Escape(s: Bytes): Bytes {
    if s == [] then [] else Escape(s[..|s| - 1]) + EscapeByte(s[|s| - 1])
  }

  lemma {:induction false} ReplaceConcat(a: Bytes, c: Bytes, b: bv8, rep: Bytes)
    ensures Replace(a + c, b, rep) == Replace(a, b, rep) + Replace(c, b, rep)
  {
    if a == [] {
      assert a + c == c;
    } else {
      ReplaceConcat(a[1..], c, b, rep);
      assert (a + c)[1..] == a[1..] + c;
      Assoc(if a[0] == b then rep else [a[0]], Replace(a[1..], b, rep), Replace(c, b, rep));
    }
  }

  /** The two passes escape every byte once: the second never touches what the first inserted. */
  lemma {:induction false} TwoPassesEscapeOnce(s: Bytes)
    ensures Replace(Replace(s, ESC, [ESC, ESC_ESC]), END, [ESC, ESC_END]) == Escape(s)
  {
    if s != [] {
      var n := |s| - 1;
      var front, b := s[..n], s[n];
      TwoPassesEscapeOnce(front);
      assert s == front + [b];
      ReplaceConcat(front, [b], ESC, [ESC, ESC_ESC]);
      var one := Replace([b], ESC, [ESC, ESC_ESC]);
      ReplaceConcat(Replace(front, ESC, [ESC, ESC_ESC]), one, END, [ESC, ESC_END]);
      assert Replace(one, END, [ESC, ESC_END]) == EscapeByte(b) by {
        OneByte(b);
      }
    }
  }

  lemma OneByte(b: bv8)
    ensures Replace(Replace([b], ESC, [ESC, ESC_ESC]), END, [ESC, ESC_END]) == EscapeByte(b)
  {
    if b == ESC {
      assert Replace([b], ESC, [ESC, ESC_ESC]) == [ESC, ESC_ESC];
      assert [ESC, ESC_ESC][1..] == [ESC_ESC];
      assert Replace([ESC_ESC], END, [ESC, ESC_END]) == [ESC_ESC];
    } else {
      assert Replace([b], ESC, [ESC, ESC_ESC]) == [b];
    }
  }

  lemma FrameEscapes(packet: Bytes)
    ensures Frame(packet) == [END] + Escape(packet) + [END]
  {
    TwoPassesEscapeOnce(packet);
  }

  /** The bytes on the line, packet by packet byte: an end mark on both sides, and the two special bytes as pairs. */
  lemma FrameBytes(packet: Bytes, b: bv8)
    ensures Frame([]) == [0xc0, 0xc0]
    ensures var line, n := Frame(packet), |Frame(packet)| - 1;
            && n >= 1 && line[n] == 0xc0
            && Frame(packet + [b]) ==
               line[..n] + (if b == 0xc0 then [0xdb, 0xdc] else if b == 0xdb then [0xdb, 0xdd] else [b]) + [0xc0]
  {
    hide Replace, Escape, Frame;
    FrameEscapes([]);
    FrameEscapes(packet);
    FrameEscapes(packet + [b]);
    EscapeStep(packet, b);
    NothingEscapes();
    assert ([END] + Escape(packet) + [END])[..1 + |Escape(packet)|] == [END] + Escape(packet);
    Assoc([END], Escape(packet), EscapeByte(b));
  }

  lemma NothingEscapes()
    ensures Escape([]) == []
  {
  }

  function Frames(packets: seq<Bytes>): Bytes {
    if packets == [] then [] else Frames(packets[..|packets| - 1]) + Frame(packets[|packets| - 1])
  }

  // ----- reading -----

  /** Between packets, or inside one with what has been read of it. */
  datatype Reader = Idle | Reading(partial: Bytes, inEscape: bool)

  datatype Fed = Fed(reader: Reader, packets: seq<Bytes>)

  function ReadByte(r: Reader, b: bv8): Result<Fed> {
    match r
    case Idle => if b == END then Ok(Fed(Reading([], false), [])) else Raised
    case Reading(p, true) =>
      if b == ESC_END then Ok(Fed(Reading(p + [END], false), []))
      else if b == ESC_ESC then Ok(Fed(Reading(p + [ESC], false), []))
      else Raised
    case Reading(p, false) =>
      if b == ESC then Ok(Fed(Reading(p, true), []))
      else if b == END then Ok(Fed(Idle, [p]))
      else Ok(Fed(Reading(p + [b], false), []))
  }

  /** Packets read earlier in front of what is read next. */
  function After(packets: seq<Bytes>, r: Result<Fed>): Result<Fed> {
    match r
    case Raised => Raised
    case Ok(f) => Ok(Fed(f.reader, packets + f.packets))
  }

  /** All bytes in turn, collecting the packets. */
  function Read(r: Reader, s: Bytes): Result<Fed> {
    if s == [] then Ok(Fed(r, []))
    else
      match Read(r, s[..|s| - 1])
      case Raised => Raised
      case Ok(f) => After(f.packets, ReadByte(f.reader, s[|s| - 1]))
  }

  lemma ReadSnoc(r: Reader, s: Bytes, b: bv8)
    ensures Read(r, s + [b]) ==
      match Read(r, s) case Raised => Raised case Ok(f) => After(f.packets, ReadByte(f.reader, b))
  {
    hide ReadByte, After;
    assert (s + [b])[..|s|] == s;
  }

  lemma AfterAfter(p: seq<Bytes>, q: seq<Bytes>, r: Result<Fed>)
    ensures After(p, After(q, r)) == After(p + q, r)
  {
    if r.Ok? {
      Assoc(p, q, r.value.packets);
    }
  }

  lemma {:induction false} ReadConcat(r: Reader, a: Bytes, c: Bytes)
    ensures Read(r, a + c) ==
      match Read(r, a) case Raised => Raised case Ok(f) => After(f.packets, Read(f.reader, c))
  {
    if c == [] {
      assert a + c == a;
      if Read(r, a).Ok? {
        assert Read(r, a).value.packets + [] == Read(r, a).value.packets;
      }
    } else {
      var n := |c| - 1;
      var front, b := c[..n], c[n];
      ReadConcat(r, a, front);
      assert c == front + [b];
      Assoc(a, front, [b]);
      ReadSnoc(r, a + front, b);
      if Read(r, a).Ok? {
        var f := Read(r, a).value;
        ReadSnoc(f.reader, front, b);
        if Read(f.reader, front).Ok? {
          var g := Read(f.reader, front).value;
          AfterAfter(f.packets, g.packets, ReadByte(g.reader, b));
        }
      }
    }
  }

  /** The bytes of a packet under way. */
  function Begun(r: Reader): Bytes {
    match r
    case Idle => []
    case Reading(p, e) => [END] + Escape(p) + (if e then [ESC] else [])
  }

  lemma EscapeStep(p: Bytes, b: bv8)
    ensures Escape(p + [b]) == Escape(p) + EscapeByte(b)
  {
    assert (p + [b])[..|p|] == p;
  }

  /** One accepted byte: read so far plus the byte is finished packets plus the rest under way. */
  lemma ReadByteInverts(r: Reader, b: bv8)
    ensures match ReadByte(r, b)
            case Raised => true
            case Ok(f) => Begun(r) + [b] == Frames(f.packets) + Begun(f.reader)
  {
    hide Frame, Escape, Frames;
    FramesNothing();
    EscapeNothing();
    if r.Reading? {
      var p := r.partial;
      var open := [END] + Escape(p);
      if r.inEscape {
        EscapeStep(p, END);
        EscapeStep(p, ESC);
        Assoc(open, [ESC], [b]);
        Assoc([END], Escape(p), [ESC, b]);
      } else {
        EscapeStep(p, b);
        Assoc([END], Escape(p), EscapeByte(b));
        assert open + [] == open;
        FrameEscapes(p);
        FramesSnoc([], p);
        assert [] + [p] == [p];
      }
    }
  }

  lemma FramesNothing()
    ensures Frames([]) == []
  {
  }

  lemma EscapeNothing()
    ensures Escape([]) == []
  {
  }

  lemma FramesSnoc(ps: seq<Bytes>, p: Bytes)
    ensures Frames(ps + [p]) == Frames(ps) + Frame(p)
  {
    hide Frame;
    assert (ps + [p])[..|ps|] == ps;
  }

  lemma {:induction false} FramesConcat(a: seq<Bytes>, c: seq<Bytes>)
    ensures Frames(a + c) == Frames(a) + Frames(c)
  {
    hide Frame;
    if c == [] {
      assert a + c == a;
    } else {
      var n := |c| - 1;
      var front, p := c[..n], c[n];
      FramesConcat(a, front);
      assert c == front + [p];
      Assoc(a, front, [p]);
      FramesSnoc(a + front, p);
      FramesSnoc(front, p);
      Assoc(Frames(a), Frames(front), Frame(p));
    }
  }

  /** What is read is what was written: the packets' frames, and the part under way. */
  lemma {:induction false} ReadInverts(r: Reader, s: Bytes)
    ensures match Read(r, s)
            case Raised => true
            case Ok(f) => Begun(r) + s == Frames(f.packets) + Begun(f.reader)
  {
    hide ReadByte, Begun;
    if s == [] {
      assert Begun(r) + s == Begun(r) && [] + Begun(r) == Begun(r);
    } else if Read(r, s).Ok? {
      var n := |s| - 1;
      var front, b := s[..n], s[n];
      ReadInverts(r, front);
      var f := Read(r, front).value;
      ReadByteInverts(f.reader, b);
      var g := ReadByte(f.reader, b).value;
      FramesConcat(f.packets, g.packets);
      assert s == front + [b];
      Assoc(Begun(r), front, [b]);
      Assoc(Frames(f.packets), Begun(f.reader), [b]);
      Assoc(Frames(f.packets), Frames(g.packets), Begun(g.reader));
    }
  }

  /** Reading an escaped packet body appends the packet. */
  lemma {:induction false} ReadBody(p: Bytes, s: Bytes)
    ensures Read(Reading(p, false), Escape(s)) == Ok(Fed(Reading(p + s, false), []))
  {
    hide ReadByte, EscapeByte;
    if s == [] {
      assert p + s == p;
    } else {
      var n := |s| - 1;
      var front := s[..n];
      ReadBody(p, front);
      ReadConcat(Reading(p, false), Escape(front), EscapeByte(s[n]));
      ReadEscaped(p + front, s[n]);
      assert s == front + [s[n]];
      Assoc(p, front, [s[n]]);
    }
  }

  lemma ReadOne(r: Reader, b: bv8)
    ensures Read(r, [b]) == (match ReadByte(r, b) case Raised => Raised case Ok(g) => Ok(g))
  {
    assert [b][..0] == [];
    if ReadByte(r, b).Ok? {
      assert [] + ReadByte(r, b).value.packets == ReadByte(r, b).value.packets;
    }
  }

  lemma ReadEscaped(p: Bytes, b: bv8)
    ensures Read(Reading(p, false), EscapeByte(b)) == Ok(Fed(Reading(p + [b], false), []))
  {
    if b == END || b == ESC {
      var second := if b == END then ESC_END else ESC_ESC;
      assert EscapeByte(b) == [ESC] + [second];
      ReadConcat(Reading(p, false), [ESC], [second]);
      ReadOne(Reading(p, false), ESC);
      ReadOne(Reading(p, true), second);
    } else {
      ReadOne(Reading(p, false), b);
    }
  }

  lemma ReadFrame(p: Bytes)
    ensures Read(Idle, Frame(p)) == Ok(Fed(Idle, [p]))
  {
    FrameEscapes(p);
    ReadConcat(Idle, [END] + Escape(p), [END]);
    ReadConcat(Idle, [END], Escape(p));
    ReadOne(Idle, END);
    ReadBody([], p);
    assert [] + p == p;
    ReadOne(Reading(p, false), END);
  }

  lemma {:induction false} ReadFrames(ps: seq<Bytes>)
    ensures Read(Idle, Frames(ps)) == Ok(Fed(Idle, ps))
  {
    hide Read, Frame;
    NothingRead();
    if ps != [] {
      var n := |ps| - 1;
      ReadFrames(ps[..n]);
      ReadConcat(Idle, Frames(ps[..n]), Frame(ps[n]));
      ReadFrame(ps[n]);
      assert ps[..n] + [ps[n]] == ps;
    }
  }

  /** A byte stream is read as the packets `ps` exactly if it is their frames one after the other. */
  lemma SlipRoundTrip(s: Bytes, ps: seq<Bytes>)
    ensures Read(Idle, s) == Ok(Fed(Idle, ps)) <==> s == Frames(ps)
  {
    ReadFrames(ps);
    if Read(Idle, s) == Ok(Fed(Idle, ps)) {
      ReadInverts(Idle, s);
      assert [] + s == s && Frames(ps) + [] == Frames(ps);
    }
  }

  // ----- what is yielded before an error -----

  /** How many bytes are read before one is refused. */
  function Accepted(r: Reader, s: Bytes): (n: nat)
    ensures n <= |s| && Read(r, s[..n]).Ok? && (n < |s| ==> Read(r, s[..n + 1]).Raised?)
  {
    assert s[..|s|] == s;
    if Read(r, s).Ok? then |s|
    else
      var front := s[..|s| - 1];
      var n := Accepted(r, front);
      assert s[..n] == front[..n] && (n < |front| ==> s[..n + 1] == front[..n + 1]);
      n
  }

  /** The packets yielded until the stream ends or an error is raised. */
  function Yielded(r: Reader, s: Bytes): seq<Bytes> { Read(r, s[..Accepted(r, s)]).value.packets }

  lemma RaisedStays(r: Reader, s: Bytes, n: nat)
    requires n <= |s|
    ensures Read(r, s[..n]).Raised? ==> Read(r, s).Raised?
  {
    assert s == s[..n] + s[n..];
    ReadConcat(r, s[..n], s[n..]);
  }

  /** A refused byte after accepted ones is the only place where reading can stop. */
  lemma AcceptedIs(r: Reader, s: Bytes, n: nat)
    requires n <= |s| && Read(r, s[..n]).Ok? && (n < |s| ==> Read(r, s[..n + 1]).Raised?)
    ensures Accepted(r, s) == n
  {
    hide Read, Accepted;
    var m := Accepted(r, s);
    if m < n {
      assert s[..n][..m + 1] == s[..m + 1];
      RaisedStays(r, s[..n], m + 1);
    } else if n < m {
      assert s[..m][..n + 1] == s[..n + 1];
      RaisedStays(r, s[..m], n + 1);
    }
  }

  /** What is yielded is what was framed: the accepted bytes are those frames and the part under way. */
  lemma YieldedInverts(r: Reader, s: Bytes)
    ensures var n := Accepted(r, s);
            Begun(r) + s[..n] == Frames(Yielded(r, s)) + Begun(Read(r, s[..n]).value.reader)
  {
    hide Read, Frames, Begun;
    ReadInverts(r, s[..Accepted(r, s)]);
  }

  /** A front part of frames is accepted, and yields a front part of the packets. */
  lemma FrontOfFrames(s: Bytes, ps: seq<Bytes>)
    requires s <= Frames(ps)
    ensures Accepted(Idle, s) == |s| && Yielded(Idle, s) <= ps
  {
    hide Read, Frames, Accepted;
    var rest := Frames(ps)[|s|..];
    assert Frames(ps) == s + rest;
    ReadFrames(ps);
    ReadConcat(Idle, s, rest);
    assert s[..|s|] == s;
    AcceptedIs(Idle, s, |s|);
  }

  // ----- any chunking -----

  /** The generator's state between two reads of the port. */
  class SlipReader {
    var reader: Reader

    constructor ()
      ensures reader == Idle
    {
      reader := Idle;
    }

    /** Handles the bytes of one read, with the packets yielded on the way; a read that times out is empty. */
    method Feed(chunk: Bytes) returns (packets: seq<Bytes>, raised: bool)
      modifies this
      ensures packets == Yielded(old(reader), chunk)
      ensures raised <==> chunk == [] || Accepted(old(reader), chunk) < |chunk|
      ensures !raised ==> Read(old(reader), chunk) == Ok(Fed(reader, packets))
    {
      hide Accepted;
      ghost var r0 := reader;
      packets := [];
      if chunk == [] {
        return packets, true;
      }
      for i := 0 to |chunk|
        invariant Read(r0, chunk[..i]) == Ok(Fed(reader, packets))
      {
        var b := chunk[i];
        ReadSnoc(r0, chunk[..i], b);
        assert packets + [] == packets;
        assert chunk[..i + 1] == chunk[..i] + [b];
        StopsHere(r0, chunk, i);
        match reader {
          case Idle =>
            if b == END {
              reader := Reading([], false);
            } else {
              return packets, true;
            }
          case Reading(p, inEscape) =>
            if inEscape {
              if b == ESC_END {
                reader := Reading(p + [END], false);
              } else if b == ESC_ESC {
                reader := Reading(p + [ESC], false);
              } else {
                return packets, true;
              }
            } else if b == ESC {
              reader := Reading(p, true);
            } else if b == END {
              packets := packets + [p];
              reader := Idle;
            } else {
              reader := Reading(p + [b], false);
            }
        }
      }
      assert chunk[..|chunk|] == chunk;
      AcceptedIs(r0, chunk, |chunk|);
      raised := false;
    }
  }

  lemma StopsHere(r: Reader, s: Bytes, n: nat)
    requires n < |s| && Read(r, s[..n]).Ok?
    ensures Read(r, s[..n + 1]).Raised? ==> Accepted(r, s) == n
  {
    hide Read, Accepted;
    if Read(r, s[..n + 1]).Raised? {
      AcceptedIs(r, s, n);
    }
  }

  /** The number of reads before the first empty one. */
  function Reads(chunks: seq<Bytes>): (n: nat)
    ensures n <= |chunks| && [] !in chunks[..n] && (n < |chunks| ==> chunks[n] == [])
  {
    if chunks == [] || chunks[0] == [] then 0
    else
      var n := 1 + Reads(chunks[1..]);
      assert chunks[..n] == [chunks[0]] + chunks[1..][..n - 1];
      n
  }

  /** The bytes that arrive before the first empty read. */
  function Arrived(chunks: seq<Bytes>): Bytes { Flatten(chunks[..Reads(chunks)]) }

  /**
   Any stream, cut into reads in any way: the cuts do not matter. What is yielded before an error or an empty
   read is what the bytes so far yield. The frames of `ps` give back exactly `ps`, or a front part of it if a
   read is empty.
   */
  method ReadChunks(chunks: seq<Bytes>, ghost ps: seq<Bytes>) returns (packets: seq<Bytes>, raised: bool)
    ensures packets == Yielded(Idle, Arrived(chunks))
    ensures raised <==> [] in chunks || Accepted(Idle, Arrived(chunks)) < |Arrived(chunks)|
    ensures Flatten(chunks) == Frames(ps) ==>
      (raised <==> [] in chunks) && packets <= ps && (!raised ==> packets == ps)
  {
    hide Read, Frames, Accepted;
    var reader := new SlipReader();
    packets := [];
    ghost var total := Reads(chunks);
    FramesCut(chunks, ps);
    NothingRead();
    for i := 0 to |chunks|
      invariant i <= total && Read(Idle, Flatten(chunks[..i])) == Ok(Fed(reader.reader, packets))
    {
      ghost var f := Fed(reader.reader, packets);
      NextChunk(chunks, i, f);
      var fed;
      fed, raised := reader.Feed(chunks[i]);
      packets := packets + fed;
      if raised {
        if chunks[i] == [] {
          EmptyChunk(chunks, i, f);
        } else {
          RefusedChunk(chunks, i, f);
        }
        return;
      }
    }
    assert chunks[..|chunks|] == chunks;
    AllArrived(chunks);
    raised := false;
  }

  /** One more read of the port, in terms of all bytes that have arrived. */
  lemma NextChunk(chunks: seq<Bytes>, i: nat, f: Fed)
    requires i < |chunks| && i <= Reads(chunks) && Read(Idle, Flatten(chunks[..i])) == Ok(f)
    ensures chunks[i] != [] ==> i < Reads(chunks)
    ensures Read(Idle, Flatten(chunks[..i + 1])) == After(f.packets, Read(f.reader, chunks[i]))
  {
    hide Read, Flatten;
    FlattenNext(chunks, i);
    ReadConcat(Idle, Flatten(chunks[..i]), chunks[i]);
  }

  /** An empty read: what has been yielded so far is all there is. */
  lemma EmptyChunk(chunks: seq<Bytes>, i: nat, f: Fed)
    requires i < |chunks| && i <= Reads(chunks) && chunks[i] == [] && Read(Idle, Flatten(chunks[..i])) == Ok(f)
    ensures f.packets + Yielded(f.reader, []) == Yielded(Idle, Arrived(chunks))
  {
    hide Read, Accepted, Flatten;
    var front, n := Flatten(chunks[..i]), Reads(chunks);
    assert i == n;
    assert front[..|front|] == front;
    AcceptedIs(Idle, front, |front|);
    YieldedNothing(f.reader);
  }

  /** A read with a byte that is refused: reading the whole stream stops there as well. */
  lemma RefusedChunk(chunks: seq<Bytes>, i: nat, f: Fed)
    requires i < Reads(chunks) && Read(Idle, Flatten(chunks[..i])) == Ok(f)
    requires Accepted(f.reader, chunks[i]) < |chunks[i]|
    ensures Accepted(Idle, Arrived(chunks)) < |Arrived(chunks)|
    ensures Yielded(Idle, Arrived(chunks)) == f.packets + Yielded(f.reader, chunks[i])
  {
    hide Read, Accepted, Flatten;
    FlattenNext(chunks, i);
    FlattenFront(chunks, i + 1, Reads(chunks));
    RefusedInside(Flatten(chunks[..i]), chunks[i], Arrived(chunks), f);
  }

  lemma RefusedInside(front: Bytes, chunk: Bytes, s: Bytes, f: Fed)
    requires front + chunk <= s && Read(Idle, front) == Ok(f) && Accepted(f.reader, chunk) < |chunk|
    ensures Accepted(Idle, s) < |s| && Yielded(Idle, s) == f.packets + Yielded(f.reader, chunk)
  {
    hide Read, Accepted, Yielded;
    var k := Accepted(f.reader, chunk);
    var n := |front| + k;
    ReadFrontPart(front, chunk, s, f, k);
    ReadFrontPart(front, chunk, s, f, k + 1);
    assert n < |s|;
    AcceptedIs(Idle, s, n);
    var g := Read(f.reader, chunk[..k]).value;
    YieldedIs(f.reader, chunk, g);
    YieldedIs(Idle, s, Fed(g.reader, f.packets + g.packets));
  }

  lemma YieldedIs(r: Reader, s: Bytes, g: Fed)
    requires Read(r, s[..Accepted(r, s)]) == Ok(g)
    ensures Yielded(r, s) == g.packets
  {
    hide Read, Accepted;
  }

  lemma ReadFrontPart(front: Bytes, chunk: Bytes, s: Bytes, f: Fed, k: nat)
    requires front + chunk <= s && Read(Idle, front) == Ok(f) && k <= |chunk|
    ensures Read(Idle, s[..|front| + k]) == After(f.packets, Read(f.reader, chunk[..k]))
  {
    hide Read, After;
    assert s[..|front| + k] == front + chunk[..k];
    ReadConcat(Idle, front, chunk[..k]);
  }

  lemma YieldedNothing(r: Reader)
    ensures Yielded(r, []) == []
  {
  }

  lemma FlattenNext(chunks: seq<Bytes>, i: nat)
    requires i < |chunks|
    ensures Flatten(chunks[..i + 1]) == Flatten(chunks[..i]) + chunks[i]
  {
    assert chunks[..i + 1][..i] == chunks[..i];
  }

  lemma {:induction false} FlattenFront(chunks: seq<Bytes>, i: nat, n: nat)
    requires i <= n <= |chunks|
    ensures Flatten(chunks[..i]) <= Flatten(chunks[..n])
    decreases n
  {
    if i < n {
      FlattenFront(chunks, i, n - 1);
      FlattenNext(chunks, n - 1);
    }
  }

  lemma AllArrived(chunks: seq<Bytes>)
    requires Reads(chunks) == |chunks| && Read(Idle, Flatten(chunks)).Ok?
    ensures [] !in chunks && Arrived(chunks) == Flatten(chunks)
    ensures Accepted(Idle, Arrived(chunks)) == |Arrived(chunks)|
    ensures Yielded(Idle, Arrived(chunks)) == Read(Idle, Flatten(chunks)).value.packets
  {
    hide Read, Accepted;
    assert chunks[..|chunks|] == chunks;
    var s := Flatten(chunks);
    assert s[..|s|] == s;
    AcceptedIs(Idle, s, |s|);
  }

  /** Frames cut into reads: all that arrives is accepted, and if no read is empty it is all packets. */
  lemma FramesCut(chunks: seq<Bytes>, ps: seq<Bytes>)
    ensures Flatten(chunks) == Frames(ps) ==>
      && Accepted(Idle, Arrived(chunks)) == |Arrived(chunks)| && Yielded(Idle, Arrived(chunks)) <= ps
      && ([] !in chunks ==> Yielded(Idle, Arrived(chunks)) == ps)
  {
    hide Read, Accepted, Frames;
    assert chunks[..|chunks|] == chunks;
    if Flatten(chunks) == Frames(ps) {
      FlattenFront(chunks, Reads(chunks), |chunks|);
      FrontOfFrames(Arrived(chunks), ps);
      ReadFrames(ps);
      if [] !in chunks {
        assert Reads(chunks) == |chunks|;
        AllArrived(chunks);
      }
    }
  }

  lemma NothingRead()
    ensures Read(Idle, []) == Ok(Fed(Idle, []))
  {
  }
}

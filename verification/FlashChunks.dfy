/** How an image is cut for the flash: 4 KiB pieces up to the next n-aligned address, then n bytes each. */
module FlashChunks {
  import opened Arithmetic
  import opened Results
  import opened Sequences
  import opened Words

  const SECTOR := 4096
  const FRAME := 16 * SECTOR

  /** A slice that stops at the end of the data. */
  function Slice(l: Bytes, lo: nat, hi: nat): Bytes
    requires lo <= hi
  {
    if |l| <= lo then [] else if |l| <= hi then l[lo..] else l[lo..hi]
  }

  /** The size of the piece that starts at an address. */
  function PieceSize(n: nat, address: int): nat
    requires n > 0
  {
    if address % n == 0 then n else SECTOR
  }

  /** The pieces of data that goes to an address. */
  function Cuts(l: Bytes, n: nat, address: int): seq<Bytes>
    requires n > 0
  {
    if l == [] then []
    else
      var size := PieceSize(n, address);
      if |l| <= size then [l] else [l[..size]] + Cuts(l[size..], n, address + size)
  }

  /** Up to the next n-aligned address. */
  function Lead(n: nat, address: int): nat
    requires n > 0
  {
    (n - address % n) % n
  }

  predicate SectorAligned(n: nat, address: int)
    requires n > 0
  {
    Lead(n, address) % SECTOR == 0
  }

  /** The condition under which one empty piece follows the pieces. */
  predicate EmptyPiece(len: nat, n: nat, address: int)
    requires n > 0
  {
    len % SECTOR == 0 && len < Lead(n, address)
  }

  // ----- the loops -----

  function Rest(l: Bytes, pos: nat): Bytes { if pos < |l| then l[pos..] else [] }

  lemma BeforeTheBlock(n: nat, address: int, i: nat)
    requires n > 0 && address % n != 0 && i * SECTOR < Lead(n, address)
    ensures (address + i * SECTOR) % n != 0
  {
    hide Lead;
    LeadIs(n, address);
    var r := address % n + i * SECTOR;
    assert address + i * SECTOR == n * (address / n) + r;
    ModOf(n, address / n, r);
  }

  lemma InTheBlocks(n: nat, address: int, k: nat)
    requires n > 0
    ensures (address + Lead(n, address) + k * n) % n == 0
  {
    var q := address / n + (if address % n == 0 then 0 else 1) + k;
    assert address + Lead(n, address) + k * n == n * q + 0 by {
      assert address == n * (address / n) + address % n;
      assert n * q == n * (address / n) + (if address % n == 0 then 0 else n) + n * k;
      LeadIs(n, address);
    }
    ModOf(n, q, 0);
  }

  lemma LeadIs(n: nat, address: int)
    requires n > 0
    ensures Lead(n, address) == if address % n == 0 then 0 else n - address % n
  {
    if address % n == 0 {
      ModOf(n, 1, 0);
    } else {
      ModOf(n, 0, n - address % n);
    }
  }

  /** The next piece continues the cuts. */
  lemma NextPiece(l: Bytes, n: nat, address: int, pos: nat, pieces: seq<Bytes>)
    requires n > 0 && pos < |l|
    requires pieces + Cuts(Rest(l, pos), n, address + pos) == Cuts(l, n, address)
    ensures var size := PieceSize(n, address + pos);
            (pieces + [Slice(l, pos, pos + size)]) + Cuts(Rest(l, pos + size), n, address + pos + size)
            == Cuts(l, n, address)
  {
    hide PieceSize, Cuts, Rest, Slice;
    var size := PieceSize(n, address + pos);
    var piece := Slice(l, pos, pos + size);
    CutsFrom(l, n, address + pos, pos);
    assert address + pos + size == address + (pos + size);
    Assoc(pieces, [piece], Cuts(Rest(l, pos + size), n, address + pos + size));
  }

  /** The cuts of the rest of the data are one slice and the cuts of what remains. */
  lemma CutsFrom(l: Bytes, n: nat, at: int, pos: nat)
    requires n > 0 && pos < |l|
    ensures var size := PieceSize(n, at);
            Cuts(Rest(l, pos), n, at) == [Slice(l, pos, pos + size)] + Cuts(Rest(l, pos + size), n, at + size)
  {
    hide PieceSize;
    var size := PieceSize(n, at);
    var rest := l[pos..];
    if |rest| <= size {
      assert Slice(l, pos, pos + size) == rest;
      assert [rest] + [] == [rest];
    } else {
      assert Slice(l, pos, pos + size) == rest[..size];
      assert rest[size..] == l[pos + size..];
    }
  }

  function CeilDiv(a: int, n: nat): int
    requires n > 0
  {
    -((-a) / n)
  }

  lemma CeilBounds(a: int, n: nat, k: int)
    requires n > 0
    ensures k < CeilDiv(a, n) <==> k * n < a
  {
    var c := CeilDiv(a, n);
    var m := (-a) % n;
    assert c * n == a + m by {
      assert -a == n * ((-a) / n) + m;
      assert c * n == -(n * ((-a) / n));
    }
    if k < c {
      assert k * n <= (c - 1) * n;
    } else {
      assert k * n >= c * n;
    }
  }

  /** The plain slices. */
  method Blocks(l: Bytes, n: nat, ghost address: int) returns (pieces: seq<Bytes>)
    requires n > 0 && address % n == 0
    ensures pieces == Cuts(l, n, address)
  {
    hide Cuts, Slice, Rest;
    pieces := [];
    var i := 0;
    ghost var k := 0;
    assert Rest(l, 0) == l && [] + Cuts(l, n, address) == Cuts(l, n, address) by {
      RestOfAll(l);
    }
    while i < |l|
      invariant i == k * n
      invariant pieces + Cuts(Rest(l, i), n, address + i) == Cuts(l, n, address)
      decreases |l| - i
    {
      InTheBlocks(n, address, k);
      LeadIs(n, address);
      NextPiece(l, n, address, i, pieces);
      pieces := pieces + [Slice(l, i, i + n)];
      i := i + n;
      k := k + 1;
    }
    NothingLeft(l, n, address, i, pieces);
  }

  lemma RestOfAll(l: Bytes)
    ensures Rest(l, 0) == l
  {
  }

  lemma NothingLeft(l: Bytes, n: nat, address: int, pos: nat, pieces: seq<Bytes>)
    requires n > 0 && |l| <= pos
    ensures pieces + Cuts(Rest(l, pos), n, address + pos) == pieces
  {
  }

  /** Where piece number `i` starts. */
  function Position(n: nat, startPos: nat, i: nat): nat {
    var sectors := startPos / SECTOR;
    if i <= sectors then SECTOR * i else startPos + (i - sectors) * n
  }

  lemma NextSector(l: Bytes, n: nat, address: int, i: nat, pieces: seq<Bytes>)
    requires n > 0 && address % n != 0 && SECTOR * i < |l| && SECTOR * i < Lead(n, address)
    requires pieces + Cuts(Rest(l, SECTOR * i), n, address + SECTOR * i) == Cuts(l, n, address)
    ensures (pieces + [Slice(l, SECTOR * i, SECTOR * (i + 1))])
            + Cuts(Rest(l, SECTOR * (i + 1)), n, address + SECTOR * (i + 1)) == Cuts(l, n, address)
  {
    hide Cuts, Slice, Rest;
    BeforeTheBlock(n, address, i);
    NextPiece(l, n, address, SECTOR * i, pieces);
  }

  lemma NextBlock(l: Bytes, n: nat, address: int, k: nat, pieces: seq<Bytes>)
    requires n > 0
    requires var start := Lead(n, address) + k * n;
             start < |l| && pieces + Cuts(Rest(l, start), n, address + start) == Cuts(l, n, address)
    ensures var start := Lead(n, address) + k * n;
            (pieces + [Slice(l, start, start + n)])
            + Cuts(Rest(l, start + n), n, address + start + n) == Cuts(l, n, address)
  {
    hide Cuts, Slice, Rest, Lead;
    InTheBlocks(n, address, k);
    assert address + (Lead(n, address) + k * n) == address + Lead(n, address) + k * n;
    NextPiece(l, n, address, Lead(n, address) + k * n, pieces);
  }

  /** After the last sector piece: the cuts are complete, and an empty piece may follow. */
  lemma LastSector(l: Bytes, n: nat, address: int, i: nat, pieces: seq<Bytes>)
    requires n > 0 && address % n != 0 && SECTOR * i <= |l| < SECTOR * (i + 1) <= Lead(n, address)
    requires pieces + Cuts(Rest(l, SECTOR * i), n, address + SECTOR * i) == Cuts(l, n, address)
    ensures pieces + [Slice(l, SECTOR * i, SECTOR * (i + 1))]
            == Cuts(l, n, address) + (if EmptyPiece(|l|, n, address) then [[]] else [])
  {
    hide Cuts, Rest, Lead;
    var whole := Cuts(l, n, address);
    if |l| == SECTOR * i {
      NothingLeft(l, n, address, SECTOR * i, pieces);
      assert EmptyPiece(|l|, n, address);
    } else {
      NextSector(l, n, address, i, pieces);
      var next := pieces + [Slice(l, SECTOR * i, SECTOR * (i + 1))];
      NothingLeft(l, n, address, SECTOR * (i + 1), next);
      assert !EmptyPiece(|l|, n, address);
      assert whole + [] == whole;
    }
  }

  lemma NoEmptyPiece(l: Bytes, n: nat, address: int)
    requires n > 0 && Lead(n, address) <= |l|
    ensures var whole := Cuts(l, n, address);
            whole == whole + (if EmptyPiece(|l|, n, address) then [[]] else [])
  {
    hide Cuts;
  }

  /** The pieces for an address inside a block: sectors up to its end, then blocks. */
  method LeadAndBlocks(l: Bytes, n: nat, address: int, startPos: nat) returns (pieces: seq<Bytes>)
    requires n > 0 && address % n != 0 && startPos == Lead(n, address) && startPos % SECTOR == 0
    ensures pieces == Cuts(l, n, address) + (if EmptyPiece(|l|, n, address) then [[]] else [])
  {
    hide Cuts, Slice, Rest, Lead, CeilDiv, EmptyPiece;
    var sectors := startPos / SECTOR;
    LeadIs(n, address);
    CeilBounds(|l| - startPos, n, -1);
    var count := CeilDiv(|l| - startPos, n) + sectors;
    pieces := [];
    RestOfAll(l);
    ghost var whole := Cuts(l, n, address);
    assert [] + whole == whole;
    for i := 0 to count
      invariant i <= sectors ==> SECTOR * i <= |l|
      invariant sectors <= i ==> startPos <= |l|
      invariant var pos := Position(n, startPos, i);
                pieces + Cuts(Rest(l, pos), n, address + pos) == whole
    {
      if i < sectors {
        if SECTOR * (i + 1) > |l| {
          LastSector(l, n, address, i, pieces);
        } else {
          NextSector(l, n, address, i, pieces);
        }
        pieces := pieces + [Slice(l, SECTOR * i, SECTOR * (i + 1))];
        if SECTOR * (i + 1) > |l| {
          return;
        }
      } else {
        var start := startPos + (i - sectors) * n;
        CeilBounds(|l| - startPos, n, i - sectors);
        NextBlock(l, n, address, i - sectors, pieces);
        pieces := pieces + [Slice(l, start, start + n)];
        if start + n > |l| {
          NothingLeft(l, n, address, start + n, pieces);
          NoEmptyPiece(l, n, address);
          return;
        }
        assert Position(n, startPos, i + 1) == start + n by {
          assert (i + 1 - sectors) * n == (i - sectors) * n + n;
        }
      }
    }
    CeilBounds(|l| - startPos, n, count - sectors);
    NothingLeft(l, n, address, Position(n, startPos, count), pieces);
    NoEmptyPiece(l, n, address);
  }

  /** Pieces for a given flash address; without one the plain slices. */
  method Chunks(l: Bytes, n: nat, address: Option<int>) returns (r: Result<seq<Bytes>>)
    ensures r.Raised? <==> n == 0 || (address.Some? && !SectorAligned(n, address.value))
    ensures r.Ok? && address.None? ==> r.value == Cuts(l, n, 0)
    ensures r.Ok? && address.Some? ==>
      r.value == Cuts(l, n, address.value) + (if EmptyPiece(|l|, n, address.value) then [[]] else [])
  {
    hide Cuts, Lead, EmptyPiece;
    if n == 0 {
      return Raised;
    }
    if address.Some? {
      LeadIs(n, address.value);
    }
    if address.Some? && address.value % n != 0 {
      InsideBlock(n, address.value);
      var startPos := n - (address.value - address.value / n * n);
      if startPos % SECTOR != 0 {
        return Raised;
      }
      var pieces := LeadAndBlocks(l, n, address.value, startPos);
      return Ok(pieces);
    } else {
      ZeroIsAligned(n);
      var pieces := Blocks(l, n, if address.Some? then address.value else 0);
      if address.Some? {
        NoEmptyPiece(l, n, address.value);
      }
      return Ok(pieces);
    }
  }

  lemma InsideBlock(n: nat, address: int)
    requires n > 0
    ensures address - address / n * n == address % n
  {
    assert address / n * n == n * (address / n);
  }

  lemma ZeroIsAligned(n: nat)
    requires n > 0
    ensures 0 % n == 0
  {
    ModOf(n, 0, 0);
  }

  // ----- what the pieces are -----

  lemma {:induction false} FlattenCons(piece: Bytes, pieces: seq<Bytes>)
    ensures Flatten([piece] + pieces) == piece + Flatten(pieces)
  {
    if pieces == [] {
      assert [piece][..0] == [];
      assert [] + piece == piece + [];
    } else {
      var n := |pieces| - 1;
      FlattenCons(piece, pieces[..n]);
      assert ([piece] + pieces)[..n + 1] == [piece] + pieces[..n];
      Assoc(piece, Flatten(pieces[..n]), pieces[n]);
    }
  }

  /** The pieces are the data, in order. */
  lemma {:induction false} CutsAreTheData(l: Bytes, n: nat, address: int)
    requires n > 0
    ensures Flatten(Cuts(l, n, address)) == l
    ensures [] !in Cuts(l, n, address)
    decreases |l|
  {
    hide PieceSize, Flatten;
    FlattenNone();
    if l != [] {
      var size := PieceSize(n, address);
      SomePiece(n, address);
      if |l| <= size {
        FlattenCons(l, []);
        assert [l] + [] == [l] && l + [] == l;
      } else {
        CutsAreTheData(l[size..], n, address + size);
        FlattenCons(l[..size], Cuts(l[size..], n, address + size));
        assert l == l[..size] + l[size..];
      }
    }
  }

  /**
   Piece `k` goes to the address behind the pieces before it: from a multiple of `n` it takes `n` bytes, from elsewhere
   4 KiB, and no more than is left.
   */
  lemma {:induction false} CutSizes(l: Bytes, n: nat, address: int, k: nat)
    requires n > 0 && k < |Cuts(l, n, address)|
    ensures var pieces := Cuts(l, n, address);
            var done := |Flatten(pieces[..k])|;
            done <= |l| && |pieces[k]| == Min(|l| - done, if (address + done) % n == 0 then n else 0x1000)
    decreases |l|
  {
    hide Flatten;
    var pieces, size := Cuts(l, n, address), PieceSize(n, address);
    FlattenNone();
    SomePiece(n, address);
    if k == 0 {
      assert pieces[..0] == [];
    } else {
      var rest := Cuts(l[size..], n, address + size);
      assert pieces == [l[..size]] + rest;
      CutSizes(l[size..], n, address + size, k - 1);
      FlattenCons(l[..size], rest[..k - 1]);
      assert pieces[..k] == [l[..size]] + rest[..k - 1];
      assert address + size + |Flatten(rest[..k - 1])| == address + |Flatten(pieces[..k])|;
    }
  }

  lemma FlattenNone()
    ensures Flatten<bv8>([]) == []
  {
  }

  lemma SomePiece(n: nat, address: int)
    requires n > 0
    ensures PieceSize(n, address) > 0
  {
  }

  /** `len` bytes from an address stay below the next n-aligned address. */
  predicate InBlock(n: nat, address: int, len: nat)
    requires n > 0
  {
    address % n + len <= n
  }

  /** Where a piece starts in the data. */
  function Offset(pieces: seq<Bytes>, k: nat): nat
    requires k <= |pieces|
  {
    |Flatten(pieces[..k])|
  }

  lemma OffsetCons(piece: Bytes, pieces: seq<Bytes>, k: nat)
    requires k <= |pieces|
    ensures Offset([piece] + pieces, k + 1) == |piece| + Offset(pieces, k)
  {
    assert ([piece] + pieces)[..k + 1] == [piece] + pieces[..k];
    FlattenCons(piece, pieces[..k]);
  }

  /** No piece goes over an n-aligned address. */
  ghost predicate InBlocks(pieces: seq<Bytes>, n: nat, address: int)
    requires n > 0
  {
    forall k :: 0 <= k < |pieces| ==> InBlock(n, address + Offset(pieces, k), |pieces[k]|)
  }

  /** Only the last piece can end inside a sector. */
  ghost predicate WholeSectors(pieces: seq<Bytes>) {
    forall k :: 0 <= k < |pieces| - 1 ==> |pieces[k]| % SECTOR == 0
  }

  lemma {:induction false} CutsStayInBlocks(l: Bytes, n: nat, address: int)
    requires n > 0 && SectorAligned(n, address)
    ensures InBlocks(Cuts(l, n, address), n, address)
    decreases |l|
  {
    hide Lead, InBlock, SectorAligned;
    if l != [] {
      var size := PieceSize(n, address);
      PieceInBlock(n, address);
      if |l| <= size {
        Shorter(n, address, |l|, size);
        InBlocksCons(l, [], n, address);
        assert [l] + [] == [l];
      } else {
        NextAligned(n, address);
        CutsStayInBlocks(l[size..], n, address + size);
        InBlocksCons(l[..size], Cuts(l[size..], n, address + size), n, address);
      }
    }
  }

  lemma PieceInBlock(n: nat, address: int)
    requires n > 0 && SectorAligned(n, address)
    ensures InBlock(n, address, PieceSize(n, address))
  {
    hide Lead;
    LeadIs(n, address);
  }

  lemma Shorter(n: nat, address: int, len: nat, longer: nat)
    requires n > 0 && len <= longer && InBlock(n, address, longer)
    ensures InBlock(n, address, len)
  {
  }

  lemma NextAligned(n: nat, address: int)
    requires n > 0 && SectorAligned(n, address)
    ensures SectorAligned(n, address + PieceSize(n, address))
  {
    hide Lead;
    LeadIs(n, address);
    var r := address % n;
    assert address == n * (address / n) + r;
    if r == 0 {
      assert address + n == n * (address / n + 1) + 0;
      ModOf(n, address / n + 1, 0);
    } else if r + SECTOR == n {
      assert address + SECTOR == n * (address / n + 1) + 0;
      ModOf(n, address / n + 1, 0);
    } else {
      OneSectorLess(n - r);
      assert address + SECTOR == n * (address / n) + (r + SECTOR);
      ModOf(n, address / n, r + SECTOR);
    }
    LeadIs(n, address + PieceSize(n, address));
  }

  lemma OneSectorLess(lead: nat)
    requires lead > 0 && lead % SECTOR == 0 && lead != SECTOR
    ensures lead > SECTOR && (lead - SECTOR) % SECTOR == 0
  {
  }

  lemma InBlocksCons(piece: Bytes, pieces: seq<Bytes>, n: nat, address: int)
    requires n > 0 && InBlock(n, address, |piece|) && InBlocks(pieces, n, address + |piece|)
    ensures InBlocks([piece] + pieces, n, address)
  {
    hide InBlock, Offset;
    var all := [piece] + pieces;
    forall k | 0 <= k < |all| ensures InBlock(n, address + Offset(all, k), |all[k]|) {
      if k == 0 {
        OffsetOfFirst(all);
      } else {
        OffsetCons(piece, pieces, k - 1);
        assert all[k] == pieces[k - 1];
      }
    }
  }

  lemma OffsetOfFirst(pieces: seq<Bytes>)
    ensures Offset(pieces, 0) == 0
  {
    assert pieces[..0] == [];
  }

  lemma {:induction false} CutsAreWholeSectors(l: Bytes, n: nat, address: int)
    requires n > 0 && n % SECTOR == 0
    ensures WholeSectors(Cuts(l, n, address))
    decreases |l|
  {
    if l != [] {
      var size := PieceSize(n, address);
      if |l| > size {
        CutsAreWholeSectors(l[size..], n, address + size);
      }
    }
  }

  /** All that is yielded joins back to the data, the empty piece included. */
  lemma ChunksJoinBack(l: Bytes, n: nat, address: int)
    requires n > 0
    ensures Flatten(Cuts(l, n, address) + (if EmptyPiece(|l|, n, address) then [[]] else [])) == l
  {
    hide Cuts, EmptyPiece;
    var whole := Cuts(l, n, address);
    CutsAreTheData(l, n, address);
    assert whole + [] == whole;
    assert (whole + [[]])[..|whole|] == whole;
    assert l + [] == l;
  }

  /** For blocks of whole sectors, the cuts accept exactly the sector-aligned addresses. */
  lemma AlignedIff(n: nat, address: int)
    requires n > 0 && n % SECTOR == 0
    ensures SectorAligned(n, address) <==> address % SECTOR == 0
  {
    hide Lead;
    LeadIs(n, address);
    RemainderAligned(n, address);
    LeadAligned(n, address % n);
  }

  /** An address and its offset in the block are aligned together. */
  lemma RemainderAligned(n: nat, address: int)
    requires n > 0 && n % SECTOR == 0
    ensures address % SECTOR == address % n % SECTOR
  {
    var k, q, r := n / SECTOR, address / n, address % n;
    Regroup(k, q);
    assert address == SECTOR * (k * q) + r;
    Congruent(k * q, r);
  }

  lemma Regroup(k: int, q: int)
    ensures SECTOR * k * q == SECTOR * (k * q)
  {
  }

  /** An offset in the block and what is left of the block are aligned together. */
  lemma LeadAligned(n: nat, r: int)
    requires n % SECTOR == 0
    ensures (n - r) % SECTOR == 0 <==> r % SECTOR == 0
  {
    Congruent(n / SECTOR, 0 - r);
  }

  lemma Congruent(m: int, r: int)
    ensures (SECTOR * m + r) % SECTOR == r % SECTOR
  {
  }
}

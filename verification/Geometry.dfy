/**
  How a torrent's bytes are cut into pieces, and pieces into the chunks that are requested.
  The functions follow the code, 32-bit truncation included; the lemmas say that within
  32-bit bounds requests tile the torrent exactly.
*/
module Geometry {
  import opened Arith
  import opened Outcomes

  datatype Request = Request(index: nat, begin: nat, length: nat)

  datatype Geo = Geo(length: nat, pieceSize: nat, chunkSize: nat, pieces: nat) {

    /** Accepted info, a usable chunk size, and sizes whose 32-bit arithmetic does not wrap. */
    ghost predicate Valid() {
      && pieceSize > 0 && chunkSize > 0
      && pieces == CeilDiv(length, pieceSize)
      && pieceSize + chunkSize <= TWO_32
      && pieces * CeilDiv(pieceSize, chunkSize) < TWO_32
    }

    function PieceLength(i: nat): nat {
      if pieceSize == 0 then 0
      else if i + 1 == pieces && U32(Rem(length, pieceSize)) != 0 then U32(Rem(length, pieceSize))
      else U32(pieceSize)
    }

    function PieceNumChunks(i: nat): nat
      requires chunkSize > 0
    {
      Quot(U32(PieceLength(i) + chunkSize - 1), chunkSize)
    }

    function ChunksPerPiece(): nat
      requires chunkSize > 0
    {
      Quot(U32(U32(pieceSize) + chunkSize - 1), chunkSize)
    }

    function NumChunks(): nat
      requires chunkSize > 0
    {
      if pieces == 0 then 0
      else U32(U32(U32(pieces - 1) * ChunksPerPiece()) + PieceNumChunks(pieces - 1))
    }

    function PieceOffset(i: nat): nat
      requires chunkSize > 0
    {
      U32(U32(i) * ChunksPerPiece())
    }

    function ChunkSpan(chunk: nat, pieceLength: nat): (nat, nat) {
      var begin := U32(chunk * chunkSize);
      (begin, if U32(begin + chunkSize) > pieceLength then U32(pieceLength - begin) else chunkSize)
    }

    function ToRequest(ri: nat): Request
      requires chunkSize > 0 && ChunksPerPiece() > 0
    {
      var index := Quot(ri, ChunksPerPiece());
      var (begin, length) := ChunkSpan(Rem(ri, ChunksPerPiece()), PieceLength(index));
      Request(U32(index), begin, length)
    }

    function FromRequest(r: Request): nat
      requires chunkSize > 0
    {
      U32(PieceOffset(r.index) + Quot(r.begin, chunkSize))
    }

    /** The request that would include the given offset into the torrent. */
    function OffsetRequest(offset: int): Option<Request>
      requires pieceSize > 0 && chunkSize > 0
    {
      if offset < 0 || offset >= length then None
      else
        var index := U32(Quot(offset, pieceSize));
        var begin := U32(Quot(Rem(offset, pieceSize), chunkSize) * chunkSize);
        var pieceLeft := U32(pieceSize - begin);
        var len := if U32(chunkSize) > pieceLeft then pieceLeft else U32(chunkSize);
        var torrentLeft := length - index * pieceSize - begin;
        Some(Request(index, begin, if len > torrentLeft then U32(torrentLeft) else len))
    }

    function RequestOffset(r: Request): Outcome<nat> {
      var off := r.index * pieceSize + r.begin;
      if off >= length then Panic else Done(off)
    }

    /** A request index that denotes a chunk. */
    ghost predicate IsIndex(ri: nat)
      requires chunkSize > 0 && ChunksPerPiece() > 0
    {
      var i := Quot(ri, ChunksPerPiece());
      i < pieces && Rem(ri, ChunksPerPiece()) < PieceNumChunks(i)
    }
  }

  // ---------- no truncation happens on valid sizes ----------

  lemma Sizes(g: Geo)
    requires g.Valid()
    ensures g.ChunksPerPiece() == CeilDiv(g.pieceSize, g.chunkSize) > 0
    ensures g.pieces <= TWO_32
    ensures g.pieces > 0 ==> (g.pieces - 1) * g.pieceSize < g.length <= g.pieces * g.pieceSize
    ensures g.pieces == 0 ==> g.length == 0
  {
    CeilDivBounds(g.pieceSize, g.chunkSize);
    CeilDivBounds(g.length, g.pieceSize);
    MulOrder(1, g.ChunksPerPiece(), g.pieces);
  }

  /** Every piece but the last is full; the last ends where the torrent ends. */
  lemma PieceExtent(g: Geo, i: nat)
    requires g.Valid() && i < g.pieces
    ensures g.PieceLength(i) == if i + 1 == g.pieces then g.length - i * g.pieceSize else g.pieceSize
    ensures 0 < g.PieceLength(i) <= g.pieceSize
    ensures i * g.pieceSize + g.PieceLength(i) <= g.length
    ensures g.PieceNumChunks(i) == CeilDiv(g.PieceLength(i), g.chunkSize)
    ensures 0 < g.PieceNumChunks(i) <= g.ChunksPerPiece()
    ensures i + 1 < g.pieces ==> g.PieceNumChunks(i) == g.ChunksPerPiece()
  {
    PieceLengths(g, i);
    PieceChunks(g, i);
    hide *;
  }

  /** What the last of `n` units of size `d` leaves of `x`. */
  lemma LastUnit(x: nat, d: nat, n: nat)
    requires d > 0 && n > 0 && (n - 1) * d < x <= n * d
    ensures Rem(x, d) == if x == n * d then 0 else x - (n - 1) * d
    ensures 0 < x - (n - 1) * d <= d && (x == n * d ==> x - (n - 1) * d == d)
  {
    assert n * d == (n - 1) * d + d;
    if x == n * d {
      DivUnique(x, d, n);
    } else {
      DivUnique(x, d, n - 1);
    }
  }

  lemma PieceLengths(g: Geo, i: nat)
    requires g.Valid() && i < g.pieces
    ensures g.PieceLength(i) == if i + 1 == g.pieces then g.length - i * g.pieceSize else g.pieceSize
    ensures 0 < g.PieceLength(i) <= g.pieceSize
    ensures i * g.pieceSize + g.PieceLength(i) <= g.length
  {
    Sizes(g);
    hide Quot, Rem, U32, CeilDiv;
    LastUnit(g.length, g.pieceSize, g.pieces);
    if i + 1 < g.pieces {
      MulOrder(i + 1, g.pieces - 1, g.pieceSize);
      assert (i + 1) * g.pieceSize == i * g.pieceSize + g.pieceSize;
    }
  }

  lemma CeilOrder(x: nat, y: nat, d: nat)
    requires d > 0 && 0 < x <= y
    ensures 0 < CeilDiv(x, d) <= CeilDiv(y, d)
  {
    hide Quot, CeilDiv;
    CeilDivBounds(x, d);
    CeilDivBounds(y, d);
    if CeilDiv(x, d) > CeilDiv(y, d) {
      MulOrder(CeilDiv(y, d), CeilDiv(x, d) - 1, d);
    }
  }

  lemma PieceChunks(g: Geo, i: nat)
    requires g.Valid() && i < g.pieces
    ensures g.PieceNumChunks(i) == CeilDiv(g.PieceLength(i), g.chunkSize)
    ensures 0 < g.PieceNumChunks(i) <= g.ChunksPerPiece()
    ensures i + 1 < g.pieces ==> g.PieceNumChunks(i) == g.ChunksPerPiece()
  {
    PieceLengths(g, i);
    Sizes(g);
    hide Quot, Rem, Geo.PieceLength;
    CeilOrder(g.PieceLength(i), g.pieceSize, g.chunkSize);
  }

  /** Piece and chunk are read off the index that is made of them. */
  lemma PlaceOf(i: nat, k: nat, c: nat) returns (ri: nat)
    requires k < c
    ensures Quot(ri, c) == i && Rem(ri, c) == k
  {
    ri := i * c + k;
    DivUnique(ri, c, i);
  }

  /** The offset of a piece and the indices in it stay within 32 bits. */
  lemma OffsetFits(g: Geo, i: nat, k: nat)
    requires g.Valid() && i < g.pieces && k < g.ChunksPerPiece()
    ensures g.PieceOffset(i) == i * g.ChunksPerPiece() && i * g.ChunksPerPiece() + k < TWO_32
  {
    Sizes(g);
    hide Quot, Rem, CeilDiv, Geo.ChunksPerPiece;
    IndexBelow(i, k, g.pieces, g.ChunksPerPiece());
    hide Geo.Valid;
  }

  lemma SplitIndex(g: Geo, ri: nat) returns (i: nat, k: nat)
    requires g.Valid() && g.ChunksPerPiece() > 0
    ensures i == Quot(ri, g.ChunksPerPiece()) && k == Rem(ri, g.ChunksPerPiece())
    ensures ri == i * g.ChunksPerPiece() + k && k < g.ChunksPerPiece()
  {
    i, k := Quot(ri, g.ChunksPerPiece()), Rem(ri, g.ChunksPerPiece());
    QuotRem(ri, g.ChunksPerPiece());
  }

  /** Chunk `k` of `num` starts inside a piece that needs `num` chunks. */
  lemma ChunkStarts(k: nat, num: nat, size: nat, len: nat)
    requires k < num && size > 0 && num == CeilDiv(len, size)
    ensures k * size < len && (k + 1) * size == k * size + size
  {
    CeilDivBounds(len, size);
    MulOrder(k, num - 1, size);
  }

  lemma IndexBelow(i: nat, k: nat, n: nat, c: nat)
    requires i < n && k < c
    ensures i * c + k < n * c
  {
    MulOrder(i + 1, n, c);
  }

  /** The place of an index: piece, chunk in piece, and the exact bytes it requests. */
  lemma IndexExtent(g: Geo, ri: nat)
    requires g.Valid() && g.ChunksPerPiece() > 0 && g.IsIndex(ri)
    ensures var i, k := Quot(ri, g.ChunksPerPiece()), Rem(ri, g.ChunksPerPiece());
            var len := g.PieceLength(i);
            && k * g.chunkSize < len
            && g.ToRequest(ri) ==
               Request(i, k * g.chunkSize,
                       if k * g.chunkSize + g.chunkSize > len then len - k * g.chunkSize else g.chunkSize)
  {
    Sizes(g);
    var i, k := SplitIndex(g, ri);
    PieceExtent(g, i);
    ChunkStarts(k, g.PieceNumChunks(i), g.chunkSize, g.PieceLength(i));
  }

  /** All pieces before the last have the same number of chunks, so indices have no gap. */
  lemma IndexBelowTotal(i: nat, k: nat, n: nat, c: nat, last: nat)
    requires n > 0 && k < c && last <= c
    ensures (i < n && k < (if i + 1 == n then last else c)) <==> i * c + k < (n - 1) * c + last
  {
    if i + 1 < n {
      IndexBelow(i, k, n - 1, c);
    } else if i >= n {
      MulOrder(n, i, c);
      assert n * c == (n - 1) * c + c;
    }
  }

  // ---------- the tiling theorems ----------

  lemma TotalChunks(g: Geo)
    requires g.Valid() && g.pieces > 0
    ensures g.NumChunks() == (g.pieces - 1) * g.ChunksPerPiece() + g.PieceNumChunks(g.pieces - 1)
  {
    hide Quot, Rem, U32;
    Sizes(g);
    PieceExtent(g, g.pieces - 1);
    var c := g.ChunksPerPiece();
    assert g.pieces * c == (g.pieces - 1) * c + c;
  }

  /** The chunk indices are exactly the numbers below `NumChunks`, with no gap before the short last piece. */
  lemma IndicesAreContiguous(g: Geo, ri: nat)
    requires g.Valid()
    ensures g.ChunksPerPiece() > 0
    ensures g.IsIndex(ri) <==> ri < g.NumChunks()
  {
    hide Quot, Rem, U32;
    Sizes(g);
    if g.pieces > 0 {
      TotalChunks(g);
      PieceExtent(g, g.pieces - 1);
      var i, k := SplitIndex(g, ri);
      IndexBelowTotal(i, k, g.pieces, g.ChunksPerPiece(), g.PieceNumChunks(g.pieces - 1));
      if i < g.pieces {
        PieceExtent(g, i);
      }
    }
  }

  /** Index to request and back is the identity on every chunk index. */
  lemma IndexRoundTrip(g: Geo, ri: nat)
    requires g.Valid() && g.ChunksPerPiece() > 0 && g.IsIndex(ri)
    ensures g.FromRequest(g.ToRequest(ri)) == ri
  {
    Sizes(g);
    IndexExtent(g, ri);
    var i, k := SplitIndex(g, ri);
    IndexBelow(i, k, g.pieces, g.ChunksPerPiece());
    DivUnique(k * g.chunkSize, g.chunkSize, k);
  }

  /** A chunk's bytes lie inside its piece and inside the torrent, and there is at least one. */
  lemma ChunkInsidePiece(g: Geo, ri: nat)
    requires g.Valid() && g.ChunksPerPiece() > 0 && g.IsIndex(ri)
    ensures var r := g.ToRequest(ri);
            && r.length > 0 && r.begin + r.length <= g.PieceLength(r.index)
            && g.RequestOffset(r) == Done(r.index * g.pieceSize + r.begin)
            && r.index * g.pieceSize + r.begin + r.length <= g.length
  {
    IndexExtent(g, ri);
    PieceExtent(g, Quot(ri, g.ChunksPerPiece()));
  }

  /** The arithmetic heart of both directions: an offset inside a chunk's extent computes that chunk. */
  lemma OffsetInChunk(g: Geo, ri: nat, off: nat)
    requires g.Valid() && g.ChunksPerPiece() > 0 && g.IsIndex(ri)
    requires var r := g.ToRequest(ri);
             r.index * g.pieceSize + r.begin <= off < r.index * g.pieceSize + r.begin + r.length
    ensures g.OffsetRequest(off) == Some(g.ToRequest(ri))
  {
    Sizes(g);
    IndexExtent(g, ri);
    ChunkInsidePiece(g, ri);
    var i, k := Quot(ri, g.ChunksPerPiece()), Rem(ri, g.ChunksPerPiece());
    PieceExtent(g, i);
    DivUnique(off, g.pieceSize, i);
    DivUnique(Rem(off, g.pieceSize), g.chunkSize, k);
  }

  /** The piece, and the chunk in it, that hold a byte. */
  lemma PlaceOfOffset(g: Geo, off: nat) returns (i: nat, k: nat)
    requires g.Valid() && off < g.length
    ensures i < g.pieces && k < g.PieceNumChunks(i)
    ensures var start := i * g.pieceSize + k * g.chunkSize; start <= off < start + g.chunkSize
    ensures off < i * g.pieceSize + g.PieceLength(i)
  {
    hide Quot, Rem, U32, CeilDiv;
    Sizes(g);
    i := Quot(off, g.pieceSize);
    QuotRem(off, g.pieceSize);
    DivBelow(off, g.pieceSize, g.pieces);
    PieceExtent(g, i);
    var within: nat := off - i * g.pieceSize;
    k := Quot(within, g.chunkSize);
    QuotRem(within, g.chunkSize);
    CeilDivBounds(g.PieceLength(i), g.chunkSize);
    DivBelow(within, g.chunkSize, g.PieceNumChunks(i));
  }

  /** The index of a place. */
  lemma IndexOfPlace(g: Geo, i: nat, k: nat) returns (ri: nat)
    requires g.Valid() && i < g.pieces && k < g.PieceNumChunks(i)
    ensures g.ChunksPerPiece() > 0 && g.IsIndex(ri)
    ensures Quot(ri, g.ChunksPerPiece()) == i && Rem(ri, g.ChunksPerPiece()) == k
  {
    Sizes(g);
    PieceChunks(g, i);
    hide Quot, Rem, U32, CeilDiv, Geo.PieceNumChunks, Geo.ChunksPerPiece, Geo.Valid;
    ri := PlaceOf(i, k, g.ChunksPerPiece());
  }

  /** Every offset of the torrent lies in the chunk found by dividing. */
  lemma ChunkOfOffset(g: Geo, off: nat) returns (ri: nat)
    requires g.Valid() && off < g.length
    ensures g.ChunksPerPiece() > 0 && g.IsIndex(ri)
    ensures var r := g.ToRequest(ri);
            r.index * g.pieceSize + r.begin <= off < r.index * g.pieceSize + r.begin + r.length
  {
    hide Quot, Rem, U32;
    var i, k := PlaceOfOffset(g, off);
    ri := IndexOfPlace(g, i, k);
    IndexExtent(g, ri);
  }

  /** Requests tile the torrent: an offset is in chunk `ri` exactly when it is the request computed for the offset. */
  lemma RequestsTile(g: Geo, ri: nat, off: int)
    requires g.Valid() && g.ChunksPerPiece() > 0 && g.IsIndex(ri)
    ensures var r := g.ToRequest(ri);
            g.OffsetRequest(off) == Some(r)
            <==> r.index * g.pieceSize + r.begin <= off < r.index * g.pieceSize + r.begin + r.length
  {
    ChunkInsidePiece(g, ri);
    if 0 <= off < g.length {
      var rj := ChunkOfOffset(g, off);
      OffsetInChunk(g, rj, off);
      var r := g.ToRequest(ri);
      if r.index * g.pieceSize + r.begin <= off < r.index * g.pieceSize + r.begin + r.length {
        OffsetInChunk(g, ri, off);
      }
    }
  }

  /** The offset computation answers on exactly the torrent's offsets, and its answer is a chunk with its own index. */
  lemma OffsetRequestIsChunk(g: Geo, off: int)
    requires g.Valid()
    ensures g.ChunksPerPiece() > 0
    ensures g.OffsetRequest(off).Some? <==> 0 <= off < g.length
    ensures g.OffsetRequest(off).Some? ==>
              var r := g.OffsetRequest(off).value;
              g.IsIndex(g.FromRequest(r)) && g.ToRequest(g.FromRequest(r)) == r
  {
    Sizes(g);
    if 0 <= off < g.length {
      var ri := ChunkOfOffset(g, off);
      OffsetInChunk(g, ri, off);
      IndexRoundTrip(g, ri);
    }
  }
}

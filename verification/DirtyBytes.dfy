/** Counting downloaded bytes: dirty bytes of a piece, and what is left of the torrent. */
module DirtyBytes {
  import opened Arith
  import opened Outcomes
  import opened Grids
  import opened Geometry
  import B = Bitmaps

  /** Dirty chunks of a torrent, by request index. */
  ghost predicate Chunks(g: Geo, dirty: set<nat>) {
    g.Valid() && g.ChunksPerPiece() > 0 && forall r :: r in dirty ==> g.IsIndex(r)
  }

  function NumDirtyChunks(g: Geo, dirty: set<nat>, i: nat): int
    requires g.chunkSize > 0
  {
    B.RangeCardinality(dirty, g.PieceOffset(i), g.PieceOffset(i + 1))
  }

  /** Regular chunks by number, the last one by its own length; 32-bit arithmetic. */
  function NumDirtyBytes(g: Geo, dirty: set<nat>, i: nat): nat
    requires g.chunkSize > 0
  {
    var num := g.PieceNumChunks(i);
    if U32(g.PieceOffset(i) + U32(num - 1)) in dirty then
      U32(g.ChunkSpan(U32(num - 1), g.PieceLength(i)).1 + U32(U32(NumDirtyChunks(g, dirty, i) - 1) * g.chunkSize))
    else U32(U32(NumDirtyChunks(g, dirty, i)) * g.chunkSize)
  }

  // ---------- sums of chunk lengths ----------

  /** Number of bytes of the chunks of `s` with an index in `[lo, hi)`. */
  ghost function SumLen(g: Geo, s: set<nat>, lo: nat, hi: nat): nat
    requires g.chunkSize > 0 && g.ChunksPerPiece() > 0
    decreases if lo < hi then hi - lo else 0
  {
    if lo >= hi then 0
    else SumLen(g, s, lo, hi - 1) + if hi - 1 in s then g.ToRequest(hi - 1).length else 0
  }

  lemma {:induction false} SumSplit(g: Geo, s: set<nat>, lo: nat, mid: nat, hi: nat)
    requires g.chunkSize > 0 && g.ChunksPerPiece() > 0 && lo <= mid <= hi
    ensures SumLen(g, s, lo, hi) == SumLen(g, s, lo, mid) + SumLen(g, s, mid, hi)
  {
    if mid < hi {
      SumSplit(g, s, lo, mid, hi - 1);
    }
  }

  lemma {:induction false} SumDisjoint(g: Geo, a: set<nat>, b: set<nat>, c: set<nat>, lo: nat, hi: nat)
    requires g.chunkSize > 0 && g.ChunksPerPiece() > 0 && a !! b
    requires forall r :: lo <= r < hi ==> (r in c <==> r in a || r in b)
    ensures SumLen(g, c, lo, hi) == SumLen(g, a, lo, hi) + SumLen(g, b, lo, hi)
    decreases if lo < hi then hi - lo else 0
  {
    if lo < hi {
      SumDisjoint(g, a, b, c, lo, hi - 1);
    }
  }

  lemma {:induction false} SumNone(g: Geo, s: set<nat>, lo: nat, hi: nat)
    requires g.chunkSize > 0 && g.ChunksPerPiece() > 0 && forall r :: lo <= r < hi ==> r !in s
    ensures SumLen(g, s, lo, hi) == 0
    decreases if lo < hi then hi - lo else 0
  {
    if lo < hi {
      SumNone(g, s, lo, hi - 1);
    }
  }

  /** Only the last of the chunks a piece needs may be short. */
  lemma ShortLast(len: nat, size: nat, k: nat)
    requires size > 0 && k < CeilDiv(len, size)
    ensures k * size + size > len ==> k + 1 == CeilDiv(len, size)
    ensures k + 1 == CeilDiv(len, size) ==> k * size + size >= len
  {
    hide Quot;
    CeilDivBounds(len, size);
    assert (k + 1) * size == k * size + size;
    if k + 1 < CeilDiv(len, size) {
      MulOrder(k + 1, CeilDiv(len, size) - 1, size);
    }
  }

  /** Where the request indices of piece `i` begin and end. */
  ghost function Lo(g: Geo, i: nat): nat
    requires g.chunkSize > 0
  {
    i * g.ChunksPerPiece()
  }

  ghost function Hi(g: Geo, i: nat): nat
    requires g.chunkSize > 0
  {
    Lo(g, i) + g.PieceNumChunks(i)
  }

  /** Bytes of the last chunk of piece `i`. */
  ghost function LastLen(g: Geo, i: nat): int
    requires g.chunkSize > 0
  {
    g.PieceLength(i) - (g.PieceNumChunks(i) - 1) * g.chunkSize
  }

  lemma NextLo(g: Geo, i: nat)
    requires g.Valid() && i < g.pieces
    ensures Lo(g, i + 1) == Lo(g, i) + g.ChunksPerPiece() && Lo(g, i) < Hi(g, i) <= Lo(g, i + 1)
    ensures i + 1 < g.pieces ==> Hi(g, i) == Lo(g, i + 1)
    ensures Lo(g, 0) == 0
  {
    PieceExtent(g, i);
    hide Quot, Rem, CeilDiv, U32;
    assert (i + 1) * g.ChunksPerPiece() == i * g.ChunksPerPiece() + g.ChunksPerPiece();
  }

  lemma ChunkPlace(g: Geo, i: nat, k: nat)
    requires g.Valid() && g.ChunksPerPiece() > 0 && i < g.pieces && k < g.PieceNumChunks(i)
    ensures var r := Lo(g, i) + k;
            g.IsIndex(r) && Quot(r, g.ChunksPerPiece()) == i && Rem(r, g.ChunksPerPiece()) == k
  {
    PieceExtent(g, i);
    hide Quot, Rem, CeilDiv, U32, Geo.PieceNumChunks, Geo.ChunksPerPiece;
    DivUnique(Lo(g, i) + k, g.ChunksPerPiece(), i);
  }

  /** Every chunk of a piece is full, except the last one, which ends the piece. */
  lemma ChunkLength(g: Geo, i: nat, r: nat)
    requires g.Valid() && g.ChunksPerPiece() > 0 && i < g.pieces && Lo(g, i) <= r < Hi(g, i)
    ensures g.IsIndex(r)
    ensures g.ToRequest(r).length == if r + 1 == Hi(g, i) then LastLen(g, i) else g.chunkSize
  {
    var k := r - Lo(g, i);
    assert g.chunkSize > 0;
    ChunkPlace(g, i, k);
    IndexExtent(g, r);
    PieceExtent(g, i);
    hide Quot, Rem, CeilDiv, U32, Geo.PieceNumChunks, Geo.ChunksPerPiece, Geo.PieceLength, Geo.ToRequest, Geo.IsIndex, Lo;
    ShortLast(g.PieceLength(i), g.chunkSize, k);
  }

  // ---------- one piece ----------

  ghost function InRange(s: set<nat>, lo: nat, hi: nat): set<nat> {
    set r | r in s && lo <= r < hi
  }

  lemma InRangeNext(s: set<nat>, lo: nat, hi: nat)
    requires lo <= hi
    ensures |InRange(s, lo, hi + 1)| == |InRange(s, lo, hi)| + if hi in s then 1 else 0
  {
    assert InRange(s, lo, hi + 1) == InRange(s, lo, hi) + if hi in s then {hi} else {};
  }

  /** Where chunks are all of one size, bytes are chunks times that size. */
  lemma {:induction false} RegularSum(g: Geo, s: set<nat>, lo: nat, hi: nat)
    requires g.chunkSize > 0 && g.ChunksPerPiece() > 0 && lo <= hi
    requires forall r :: lo <= r < hi ==> g.ToRequest(r).length == g.chunkSize
    ensures SumLen(g, s, lo, hi) == |InRange(s, lo, hi)| * g.chunkSize
    decreases hi
  {
    hide Geo.ChunksPerPiece, Geo.ToRequest;
    if lo == hi {
      assert InRange(s, lo, hi) == {};
    } else {
      RegularSum(g, s, lo, hi - 1);
      InRangeNext(s, lo, hi - 1);
      NextMultiple(|InRange(s, lo, hi - 1)|, g.chunkSize);
    }
  }

  lemma NextMultiple(n: nat, size: nat)
    ensures (n + 1) * size == n * size + size
  {
  }

  /** The bytes of some of a piece's chunks: those before the last by number, the last by its length. */
  lemma SumByCount(g: Geo, s: set<nat>, i: nat)
    requires g.Valid() && g.ChunksPerPiece() > 0 && i < g.pieces
    ensures Lo(g, i) < Hi(g, i)
    ensures SumLen(g, s, Lo(g, i), Hi(g, i)) ==
            |InRange(s, Lo(g, i), Hi(g, i) - 1)| * g.chunkSize + if Hi(g, i) - 1 in s then LastLen(g, i) else 0
  {
    assert g.chunkSize > 0;
    NextLo(g, i);
    hide Geo.ChunksPerPiece, Geo.ToRequest, Geo.Valid, Lo, Hi, LastLen;
    var lo, last := Lo(g, i), Hi(g, i) - 1;
    forall r | lo <= r < last ensures g.ToRequest(r).length == g.chunkSize {
      ChunkLength(g, i, r);
    }
    RegularSum(g, s, lo, last);
    ChunkLength(g, i, last);
  }

  /** All chunks of a piece together are the piece. */
  lemma PieceSum(g: Geo, all: set<nat>, i: nat)
    requires g.Valid() && g.ChunksPerPiece() > 0 && i < g.pieces
    requires forall r :: Lo(g, i) <= r < Hi(g, i) ==> r in all
    ensures SumLen(g, all, Lo(g, i), Hi(g, i)) == g.PieceLength(i)
  {
    assert g.chunkSize > 0;
    SumByCount(g, all, i);
    hide Geo.ChunksPerPiece, Geo.ToRequest, Geo.Valid, Geo.PieceNumChunks, Geo.PieceLength, Lo, SumLen;
    assert InRange(all, Lo(g, i), Hi(g, i) - 1) == Interval(Lo(g, i), g.PieceNumChunks(i) - 1);
  }

  lemma {:induction false} SumMono(g: Geo, a: set<nat>, b: set<nat>, lo: nat, hi: nat)
    requires g.chunkSize > 0 && g.ChunksPerPiece() > 0
    requires forall r :: lo <= r < hi && r in a ==> r in b
    ensures SumLen(g, a, lo, hi) <= SumLen(g, b, lo, hi)
    decreases if lo < hi then hi - lo else 0
  {
    hide Geo.ChunksPerPiece, Geo.ToRequest;
    if lo < hi {
      SumMono(g, a, b, lo, hi - 1);
    }
  }

  lemma SumAtMostPiece(g: Geo, dirty: set<nat>, i: nat)
    requires g.Valid() && g.ChunksPerPiece() > 0 && i < g.pieces
    ensures SumLen(g, dirty, Lo(g, i), Hi(g, i)) <= g.PieceLength(i)
  {
    assert g.chunkSize > 0;
    hide Geo.PieceLength, Geo.ChunksPerPiece, Geo.ToRequest, Geo.Valid, SumLen, Lo, Hi;
    var all := Span(Lo(g, i), Hi(g, i));
    PieceSum(g, all, i);
    SumMono(g, dirty, all, Lo(g, i), Hi(g, i));
  }

  lemma PieceOffsets(g: Geo, i: nat)
    requires g.Valid() && i <= g.pieces
    ensures g.PieceOffset(i) == Lo(g, i) < TWO_32
  {
    Sizes(g);
    hide Quot, CeilDiv;
    MulOrder(i, g.pieces, g.ChunksPerPiece());
    MulOrder(1, g.ChunksPerPiece(), i);
  }

  lemma IndexInPiece(g: Geo, i: nat, r: nat)
    requires g.Valid() && g.ChunksPerPiece() > 0 && i < g.pieces && g.IsIndex(r)
    ensures Lo(g, i) <= r < Lo(g, i + 1) <==> Lo(g, i) <= r < Hi(g, i)
  {
    var c := g.ChunksPerPiece();
    NextLo(g, i);
    hide Quot, Rem, CeilDiv, U32, Geo.PieceNumChunks, Geo.ChunksPerPiece;
    if Lo(g, i) <= r < Lo(g, i + 1) {
      DivUnique(r, c, i);
    }
  }

  lemma IndexFits(g: Geo, r: nat)
    requires g.Valid() && g.ChunksPerPiece() > 0 && g.IsIndex(r)
    ensures r < TWO_32
  {
    var i, k := SplitIndex(g, r);
    Sizes(g);
    IndexBelow(i, k, g.pieces, g.ChunksPerPiece());
  }

  /** The rank difference counts the piece's dirty chunks. */
  lemma DirtyCount(g: Geo, dirty: set<nat>, i: nat)
    requires Chunks(g, dirty) && i < g.pieces
    ensures NumDirtyChunks(g, dirty, i) == |InRange(dirty, Lo(g, i), Hi(g, i))|
  {
    assert g.chunkSize > 0;
    hide B.RangeCardinality, Geo.PieceOffset, Geo.ChunksPerPiece, Geo.IsIndex, Geo.Valid, Lo, Hi;
    PieceOffsets(g, i);
    PieceOffsets(g, i + 1);
    NextLo(g, i);
    forall r | r in dirty ensures r < TWO_32 && (Lo(g, i) <= r < Lo(g, i + 1) <==> Lo(g, i) <= r < Hi(g, i)) {
      IndexFits(g, r);
      IndexInPiece(g, i, r);
    }
    B.RangeCardinalityCounts(dirty, Lo(g, i), Lo(g, i + 1));
    assert (set b | b in dirty && Lo(g, i) <= b < Lo(g, i + 1)) == InRange(dirty, Lo(g, i), Hi(g, i));
  }

  lemma SpanOfLast(len: nat, size: nat, num: nat)
    requires size > 0 && len > 0 && num == CeilDiv(len, size)
    ensures 0 < num <= len && 0 <= (num - 1) * size < len <= (num - 1) * size + size
  {
    hide CeilDiv;
    CeilDivBounds(len, size);
    assert (num - 1) * size + size == num * size;
    MulOrder(1, size, num - 1);
  }

  lemma LastChunk(g: Geo, i: nat)
    requires g.Valid() && i < g.pieces
    ensures 0 < g.PieceNumChunks(i) < TWO_32 && 0 < LastLen(g, i) && g.PieceLength(i) < TWO_32
    ensures g.ChunkSpan(g.PieceNumChunks(i) - 1, g.PieceLength(i)).1 == LastLen(g, i)
  {
    assert g.chunkSize > 0 && g.pieceSize + g.chunkSize <= TWO_32;
    PieceExtent(g, i);
    hide Quot, Rem, CeilDiv, Geo.PieceNumChunks, Geo.PieceLength, Geo.ChunksPerPiece, Geo.Valid;
    SpanOfLast(g.PieceLength(i), g.chunkSize, g.PieceNumChunks(i));
  }

  lemma IndexOfLast(g: Geo, i: nat)
    requires g.Valid() && i < g.pieces
    ensures g.PieceNumChunks(i) > 0 && U32(g.PieceOffset(i) + U32(g.PieceNumChunks(i) - 1)) == Hi(g, i) - 1
  {
    assert g.chunkSize > 0;
    hide U32, Geo.PieceNumChunks, Geo.PieceLength, Geo.ChunksPerPiece, Geo.PieceOffset, Geo.Valid, Lo;
    LastChunk(g, i);
    PieceOffsets(g, i);
    PieceOffsets(g, i + 1);
    NextLo(g, i);
  }

  lemma NoTruncation(n: nat, last: nat, size: nat)
    requires size > 0 && last + n * size < TWO_32
    ensures U32(last + U32(U32(n) * size)) == last + n * size
  {
    MulOrder(1, size, n);
  }

  /** The count of a piece's dirty chunks, split at the last one. */
  lemma CountSplit(g: Geo, dirty: set<nat>, i: nat)
    requires Chunks(g, dirty) && i < g.pieces
    ensures Lo(g, i) < Hi(g, i)
    ensures NumDirtyChunks(g, dirty, i) == |InRange(dirty, Lo(g, i), Hi(g, i) - 1)| + if Hi(g, i) - 1 in dirty then 1 else 0
  {
    assert g.chunkSize > 0;
    NextLo(g, i);
    DirtyCount(g, dirty, i);
    hide Lo, Hi, InRange, NumDirtyChunks;
    InRangeNext(dirty, Lo(g, i), Hi(g, i) - 1);
  }

  /** What the code computes, from the number of dirty chunks before the last one. */
  lemma Computed(g: Geo, dirty: set<nat>, i: nat)
    requires Chunks(g, dirty) && i < g.pieces
    ensures var n := |InRange(dirty, Lo(g, i), Hi(g, i) - 1)|;
            NumDirtyBytes(g, dirty, i) == U32((if Hi(g, i) - 1 in dirty then LastLen(g, i) else 0) + U32(U32(n) * g.chunkSize))
  {
    assert g.chunkSize > 0;
    hide U32, Geo.PieceNumChunks, Geo.PieceLength, Geo.ChunksPerPiece, Geo.PieceOffset, Geo.Valid, Geo.IsIndex,
         NumDirtyChunks, Geo.ChunkSpan, Lo, Hi, LastLen, InRange;
    CountSplit(g, dirty, i);
    LastChunk(g, i);
    IndexOfLast(g, i);
  }

  /** `numDirtyBytes` is the sum of the lengths of the piece's dirty chunks, and at most the piece. */
  lemma DirtyBytesAreChunkBytes(g: Geo, dirty: set<nat>, i: nat)
    requires Chunks(g, dirty) && i < g.pieces
    ensures NumDirtyBytes(g, dirty, i) == SumLen(g, dirty, Lo(g, i), Hi(g, i)) <= g.PieceLength(i)
  {
    assert g.chunkSize > 0;
    hide U32, Geo.PieceNumChunks, Geo.PieceLength, Geo.ChunksPerPiece, Geo.Valid, Geo.IsIndex,
         NumDirtyBytes, SumLen, Lo, Hi, LastLen, InRange;
    SumByCount(g, dirty, i);
    SumAtMostPiece(g, dirty, i);
    LastChunk(g, i);
    Computed(g, dirty, i);
    var lo, last := Lo(g, i), Hi(g, i) - 1;
    NoTruncation(|InRange(dirty, lo, last)|, if last in dirty then LastLen(g, i) else 0, g.chunkSize);
  }

  // ---------- the whole torrent ----------

  /** The request index of the chunk that holds a byte. */
  ghost function ByteIndex(g: Geo, off: nat): nat
    requires g.Valid() && off < g.length
  {
    var r := g.OffsetRequest(off);
    if r.Some? then g.FromRequest(r.value) else 0
  }

  lemma ByteInChunk(g: Geo, ri: nat, off: nat)
    requires g.Valid() && g.ChunksPerPiece() > 0 && g.IsIndex(ri) && off < g.length
    ensures var r := g.ToRequest(ri);
            var start := r.index * g.pieceSize + r.begin;
            ByteIndex(g, off) == ri <==> start <= off < start + r.length
  {
    hide Geo.ToRequest, Geo.OffsetRequest, Geo.FromRequest, Geo.ChunksPerPiece, Geo.IsIndex;
    OffsetRequestIsChunk(g, off);
    RequestsTile(g, ri, off);
    IndexRoundTrip(g, ri);
  }

  /** Bytes of the torrent whose chunk is in `s` and has an index below `hi`. */
  ghost function BytesIn(g: Geo, s: set<nat>, hi: nat): set<nat>
    requires g.Valid()
  {
    set off | 0 <= off < g.length && ByteIndex(g, off) < hi && ByteIndex(g, off) in s
  }

  lemma OneMoreChunk(g: Geo, s: set<nat>, ri: nat, start: nat, len: nat)
    requires g.Valid() && start + len <= g.length
    requires forall off: nat :: off < g.length ==> (ByteIndex(g, off) == ri <==> start <= off < start + len)
    ensures |BytesIn(g, s, ri + 1)| == |BytesIn(g, s, ri)| + if ri in s then len else 0
  {
    hide ByteIndex, Geo.Valid;
    var below, bytes := BytesIn(g, s, ri), Interval(start, len);
    if ri in s {
      assert BytesIn(g, s, ri + 1) == below + bytes;
      assert below !! bytes;
    } else {
      assert BytesIn(g, s, ri + 1) == below;
    }
  }

  /** Chunk lengths add up to numbers of bytes. */
  lemma {:induction false} BytesAreCounted(g: Geo, s: set<nat>, hi: nat)
    requires g.Valid() && g.ChunksPerPiece() > 0 && hi <= g.NumChunks()
    ensures |BytesIn(g, s, hi)| == SumLen(g, s, 0, hi)
  {
    assert g.chunkSize > 0;
    hide Geo.ToRequest, Geo.NumChunks, Geo.ChunksPerPiece, Geo.IsIndex, Geo.Valid, ByteIndex, Geo.PieceLength, Geo.RequestOffset;
    if hi == 0 {
      assert BytesIn(g, s, hi) == {};
    } else {
      hide BytesIn;
      BytesAreCounted(g, s, hi - 1);
      IndicesAreContiguous(g, hi - 1);
      ChunkInsidePiece(g, hi - 1);
      var r := g.ToRequest(hi - 1);
      forall off: nat | off < g.length
        ensures ByteIndex(g, off) == hi - 1 <==>
                r.index * g.pieceSize + r.begin <= off < r.index * g.pieceSize + r.begin + r.length
      {
        ByteInChunk(g, hi - 1, off);
      }
      OneMoreChunk(g, s, hi - 1, r.index * g.pieceSize + r.begin, r.length);
    }
  }

  /** Bytes neither in a complete piece nor in a dirty chunk. */
  ghost function MissingBytes(g: Geo, dirty: set<nat>, complete: set<nat>): set<nat>
    requires g.Valid() && g.ChunksPerPiece() > 0
  {
    set off | 0 <= off < g.length && ByteIndex(g, off) !in dirty && Quot(ByteIndex(g, off), g.ChunksPerPiece()) !in complete
  }

  /** Chunks still to be had. */
  ghost function Clean(g: Geo, dirty: set<nat>, complete: set<nat>): set<nat>
    requires g.Valid() && g.ChunksPerPiece() > 0
  {
    set r | 0 <= r < g.NumChunks() && r !in dirty && Quot(r, g.ChunksPerPiece()) !in complete
  }

  ghost function LeftOf(g: Geo, dirty: set<nat>, complete: set<nat>, i: nat): int
    requires g.chunkSize > 0
  {
    if i in complete then 0 else g.PieceLength(i) - NumDirtyBytes(g, dirty, i)
  }

  /** What is left of the first `k` pieces. */
  ghost function Left(g: Geo, dirty: set<nat>, complete: set<nat>, k: nat): int
    requires g.chunkSize > 0
  {
    if k == 0 then 0 else Left(g, dirty, complete, k - 1) + LeftOf(g, dirty, complete, k - 1)
  }

  lemma ByteIndexIsIndex(g: Geo, off: nat)
    requires g.Valid() && off < g.length
    ensures ByteIndex(g, off) < g.NumChunks()
  {
    OffsetRequestIsChunk(g, off);
    IndicesAreContiguous(g, ByteIndex(g, off));
  }

  lemma CleanInPiece(g: Geo, dirty: set<nat>, complete: set<nat>, i: nat, r: nat)
    requires g.Valid() && g.ChunksPerPiece() > 0 && i < g.pieces && Lo(g, i) <= r < Hi(g, i)
    ensures r in Clean(g, dirty, complete) <==> r !in dirty && i !in complete
  {
    assert g.chunkSize > 0;
    ChunkPlace(g, i, r - Lo(g, i));
    IndicesAreContiguous(g, r);
    hide Quot, Rem, Geo.NumChunks, Geo.ChunksPerPiece, Geo.IsIndex, Geo.Valid, Geo.PieceNumChunks, Lo;
  }

  lemma CleanSum(g: Geo, dirty: set<nat>, clean: set<nat>, i: nat)
    requires g.Valid() && g.ChunksPerPiece() > 0 && i < g.pieces
    requires forall r :: Lo(g, i) <= r < Hi(g, i) ==> (r in clean <==> r !in dirty)
    ensures SumLen(g, clean, Lo(g, i), Hi(g, i)) + SumLen(g, dirty, Lo(g, i), Hi(g, i)) == g.PieceLength(i)
  {
    assert g.chunkSize > 0;
    hide SumLen, Geo.ChunksPerPiece, Geo.Valid, Geo.PieceLength, Lo, Hi;
    var lo, hi := Lo(g, i), Hi(g, i);
    var all := Span(lo, hi);
    PieceSum(g, all, i);
    SumDisjoint(g, all * dirty, all - dirty, all, lo, hi);
    SumMono(g, all * dirty, dirty, lo, hi);
    SumMono(g, dirty, all * dirty, lo, hi);
    SumMono(g, all - dirty, clean, lo, hi);
    SumMono(g, clean, all - dirty, lo, hi);
  }

  lemma PieceLeft(g: Geo, dirty: set<nat>, complete: set<nat>, i: nat)
    requires Chunks(g, dirty) && i < g.pieces
    ensures SumLen(g, Clean(g, dirty, complete), Lo(g, i), Hi(g, i)) == LeftOf(g, dirty, complete, i)
  {
    assert g.chunkSize > 0 && g.Valid();
    hide Clean, SumLen, Geo.ChunksPerPiece, Geo.IsIndex, Geo.Valid, Geo.PieceLength, NumDirtyBytes, Lo, Hi;
    var clean := Clean(g, dirty, complete);
    forall r | Lo(g, i) <= r < Hi(g, i) ensures r in clean <==> r !in dirty && i !in complete {
      CleanInPiece(g, dirty, complete, i, r);
    }
    if i in complete {
      SumNone(g, clean, Lo(g, i), Hi(g, i));
    } else {
      DirtyBytesAreChunkBytes(g, dirty, i);
      CleanSum(g, dirty, clean, i);
    }
  }

  lemma {:induction false} LeftIsClean(g: Geo, dirty: set<nat>, complete: set<nat>, k: nat)
    requires Chunks(g, dirty) && k < g.pieces
    ensures Left(g, dirty, complete, k) == SumLen(g, Clean(g, dirty, complete), 0, Lo(g, k))
  {
    assert g.chunkSize > 0;
    if k == 0 {
      NextLo(g, 0);
      hide Geo.IsIndex, Geo.Valid, Clean, LeftOf;
    } else {
      hide Geo.ChunksPerPiece, Geo.IsIndex, Geo.Valid, Clean, LeftOf, SumLen, Lo, Hi;
      LeftIsClean(g, dirty, complete, k - 1);
      PieceLeft(g, dirty, complete, k - 1);
      NextLo(g, k - 1);
      SumSplit(g, Clean(g, dirty, complete), 0, Lo(g, k - 1), Lo(g, k));
    }
  }

  /** What the pieces have left, added up, is the number of bytes neither complete nor dirty. */
  lemma LeftIsMissing(g: Geo, dirty: set<nat>, complete: set<nat>)
    requires Chunks(g, dirty)
    ensures Left(g, dirty, complete, g.pieces) == |MissingBytes(g, dirty, complete)|
  {
    assert g.chunkSize > 0;
    LeftIsAllClean(g, dirty, complete);
    hide Geo.NumChunks, Geo.ChunksPerPiece, Geo.IsIndex, Geo.Valid, Left, SumLen, ByteIndex, Quot;
    var clean, total := Clean(g, dirty, complete), g.NumChunks();
    BytesAreCounted(g, clean, total);
    forall off: nat | off < g.length ensures ByteIndex(g, off) < total {
      ByteIndexIsIndex(g, off);
    }
    assert MissingBytes(g, dirty, complete) == BytesIn(g, clean, total);
  }

  lemma LeftIsAllClean(g: Geo, dirty: set<nat>, complete: set<nat>)
    requires Chunks(g, dirty)
    ensures Left(g, dirty, complete, g.pieces) == SumLen(g, Clean(g, dirty, complete), 0, g.NumChunks())
  {
    assert g.chunkSize > 0;
    if g.pieces > 0 {
      var last := g.pieces - 1;
      TotalChunks(g);
      assert g.NumChunks() == Hi(g, last);
      NextLo(g, last);
      hide Geo.NumChunks, Geo.ChunksPerPiece, Geo.IsIndex, Geo.Valid, Clean, LeftOf, SumLen, Lo, Hi;
      LeftIsClean(g, dirty, complete, last);
      PieceLeft(g, dirty, complete, last);
      SumSplit(g, Clean(g, dirty, complete), 0, Lo(g, last), Hi(g, last));
    }
  }

  ghost function Lengths(g: Geo, k: nat): nat {
    if k == 0 then 0 else Lengths(g, k - 1) + g.PieceLength(k - 1)
  }

  ghost function CompleteBytes(g: Geo, complete: set<nat>, k: nat): nat {
    if k == 0 then 0 else CompleteBytes(g, complete, k - 1) + if k - 1 in complete then g.PieceLength(k - 1) else 0
  }

  ghost function IncompleteDirtyBytes(g: Geo, dirty: set<nat>, complete: set<nat>, k: nat): nat
    requires g.chunkSize > 0
  {
    if k == 0 then 0
    else IncompleteDirtyBytes(g, dirty, complete, k - 1) + if k - 1 in complete then 0 else NumDirtyBytes(g, dirty, k - 1)
  }

  lemma {:induction false} LengthsAddUp(g: Geo, k: nat)
    requires g.Valid() && k <= g.pieces
    ensures Lengths(g, k) == if k == g.pieces then g.length else k * g.pieceSize
  {
    Sizes(g);
    hide Geo.PieceLength, Geo.Valid;
    if k > 0 {
      LengthsAddUp(g, k - 1);
      PieceExtent(g, k - 1);
      NextMultiple(k - 1, g.pieceSize);
    }
  }

  lemma {:induction false} LeftBalances(g: Geo, dirty: set<nat>, complete: set<nat>, k: nat)
    requires g.chunkSize > 0
    ensures Left(g, dirty, complete, k) ==
            Lengths(g, k) - CompleteBytes(g, complete, k) - IncompleteDirtyBytes(g, dirty, complete, k)
  {
    if k > 0 {
      LeftBalances(g, dirty, complete, k - 1);
    }
  }

  /**
    The loop over the pieces that are not complete: the torrent's length minus complete pieces
    minus dirty bytes of the others, which is the number of bytes still missing.
  */
  method BytesLeft(g: Geo, dirty: set<nat>, complete: set<nat>) returns (left: int)
    requires Chunks(g, dirty)
    ensures left == |MissingBytes(g, dirty, complete)|
    ensures left == g.length - CompleteBytes(g, complete, g.pieces) - IncompleteDirtyBytes(g, dirty, complete, g.pieces)
  {
    left := 0;
    for i := 0 to g.pieces
      invariant left == Left(g, dirty, complete, i)
    {
      if i !in complete {
        left := left + (g.PieceLength(i) - NumDirtyBytes(g, dirty, i));
      }
    }
    LeftIsMissing(g, dirty, complete);
    LeftBalances(g, dirty, complete, g.pieces);
    LengthsAddUp(g, g.pieces);
  }
}

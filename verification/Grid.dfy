/** The chunk grid of a torrent, as the scheduler sees it: pieces, each with its run of request indices. */
module Grids {
  import opened Arith
  import G = Geometry

  /** The `n` numbers from `lo` on. */
  function Interval(lo: nat, n: nat): (s: set<nat>)
    ensures |s| == n
    ensures forall r :: r in s <==> lo <= r < lo + n
  {
    if n == 0 then {} else Interval(lo, n - 1) + {lo + n - 1}
  }

  function Span(lo: nat, hi: nat): (s: set<nat>)
    ensures forall r :: r in s <==> lo <= r < hi
  {
    if lo <= hi then Interval(lo, hi - lo) else {}
  }

  datatype RawGrid = RawGrid(pieces: nat, perPiece: nat, last: nat) {

    function NumChunks(i: nat): nat {
      if i + 1 == pieces then last else perPiece
    }

    function PieceOf(r: nat): nat
      requires perPiece > 0
    {
      Quot(r, perPiece)
    }

    function First(i: nat): nat {
      i * perPiece
    }

    predicate IsChunk(r: nat)
      requires perPiece > 0
    {
      PieceOf(r) < pieces && r < First(PieceOf(r)) + NumChunks(PieceOf(r))
    }

    /** The request indices of piece `i`. */
    function ChunksOf(i: nat): set<nat> {
      Interval(First(i), NumChunks(i))
    }

    /** `numDirtyChunks` counts the dirty bits of the piece's whole index range. */
    function DirtyIn(dirty: set<nat>, i: nat): set<nat>
      requires perPiece > 0
    {
      set r | r in dirty && PieceOf(r) == i
    }

    predicate AllDirty(dirty: set<nat>, i: nat)
      requires perPiece > 0
    {
      |DirtyIn(dirty, i)| == NumChunks(i)
    }
  }

  type Grid = g: RawGrid | 1 <= g.last <= g.perPiece witness RawGrid(0, 1, 1)

  lemma InPiece(g: Grid, i: nat, r: nat)
    requires i < g.pieces
    ensures r in g.ChunksOf(i) <==> g.IsChunk(r) && g.PieceOf(r) == i
  {
    QuotRem(r, g.perPiece);
    if r in g.ChunksOf(i) {
      DivUnique(r, g.perPiece, i);
    }
  }

  lemma RangeBelowTotal(g: Grid, i: nat)
    requires i < g.pieces
    ensures g.First(i) + g.NumChunks(i) <= g.pieces * g.perPiece
  {
    MulOrder(i + 1, g.pieces, g.perPiece);
    assert (i + 1) * g.perPiece == g.First(i) + g.perPiece;
  }

  lemma ChunkBelowTotal(g: Grid, r: nat)
    requires g.IsChunk(r)
    ensures r < g.pieces * g.perPiece
  {
    RangeBelowTotal(g, g.PieceOf(r));
  }

  /** Clearing the index range of a piece removes exactly the bits that belong to it. */
  lemma PieceRange(g: Grid, i: nat, r: nat)
    ensures g.PieceOf(r) == i <==> g.First(i) <= r < g.First(i + 1)
  {
    QuotRem(r, g.perPiece);
    assert g.First(i + 1) == g.First(i) + g.perPiece;
    if g.First(i) <= r < g.First(i + 1) {
      DivUnique(r, g.perPiece, i);
    }
  }

  lemma SubsetOfSameSize<T>(a: set<T>, b: set<T>)
    requires a <= b && |a| == |b|
    ensures a == b
  {
    assert b == a + (b - a);
    assert |b| == |a| + |b - a|;
  }

  /** Counting dirty bits decides whether each of the piece's chunks is dirty. */
  lemma AllDirtyMeans(g: Grid, dirty: set<nat>, i: nat)
    requires i < g.pieces && forall r :: r in dirty ==> g.IsChunk(r)
    ensures g.AllDirty(dirty, i) <==> g.ChunksOf(i) <= dirty
  {
    var all, some := g.ChunksOf(i), g.DirtyIn(dirty, i);
    forall r: nat ensures r in all <==> g.IsChunk(r) && g.PieceOf(r) == i {
      InPiece(g, i, r);
    }
    assert some <= all;
    if g.AllDirty(dirty, i) {
      SubsetOfSameSize(some, all);
    }
    assert all <= dirty ==> some == all;
  }

  /** A piece one of whose chunks is clean is not all dirty. */
  lemma CleanChunk(g: Grid, dirty: set<nat>, r: nat)
    requires g.IsChunk(r) && r !in dirty && forall q :: q in dirty ==> g.IsChunk(q)
    ensures !g.AllDirty(dirty, g.PieceOf(r))
  {
    AllDirtyMeans(g, dirty, g.PieceOf(r));
    InPiece(g, g.PieceOf(r), r);
  }

  /** Every piece has a first chunk. */
  lemma FirstChunk(g: Grid, i: nat)
    requires i < g.pieces
    ensures g.IsChunk(g.First(i)) && g.PieceOf(g.First(i)) == i
  {
    InPiece(g, i, g.First(i));
  }

  lemma SameDirtySameCount(g: Grid, d1: set<nat>, d2: set<nat>, i: nat)
    requires forall r :: g.PieceOf(r) == i ==> (r in d1 <==> r in d2)
    ensures g.AllDirty(d1, i) <==> g.AllDirty(d2, i)
  {
    assert g.DirtyIn(d1, i) == g.DirtyIn(d2, i);
  }

  /** The grid of a torrent's geometry. */
  function GridOf(g: G.Geo): (r: RawGrid)
    requires g.chunkSize > 0
  {
    RawGrid(g.pieces, g.ChunksPerPiece(), if g.pieces == 0 then g.ChunksPerPiece() else g.PieceNumChunks(g.pieces - 1))
  }

  lemma GridOfValid(g: G.Geo)
    requires g.Valid()
    ensures 1 <= GridOf(g).last <= GridOf(g).perPiece
    ensures forall i: nat :: i < g.pieces ==> g.PieceNumChunks(i) == GridOf(g).NumChunks(i)
  {
    G.Sizes(g);
    forall i: nat | i < g.pieces ensures g.PieceNumChunks(i) == GridOf(g).NumChunks(i) {
      G.PieceExtent(g, i);
    }
    if g.pieces > 0 {
      G.PieceExtent(g, g.pieces - 1);
    }
  }

  lemma ChunkExists(begin: nat, length: nat, d: nat)
    requires d > 0 && begin < length
    ensures Quot(begin, d) < CeilDiv(length, d)
  {
    CeilDivBounds(length, d);
    hide Quot, CeilDiv;
    DivBelow(begin, d, CeilDiv(length, d));
  }

  /** The index a block starting inside its piece is recorded under. */
  lemma ReceivedIndex(g: G.Geo, index: nat, begin: nat) returns (k: nat)
    requires g.Valid() && index < g.pieces && begin < g.PieceLength(index)
    ensures k < g.PieceNumChunks(index)
    ensures g.FromRequest(G.Request(index, begin, 0)) == index * g.ChunksPerPiece() + k
  {
    G.PieceChunks(g, index);
    k := Quot(begin, g.chunkSize);
    ChunkExists(begin, g.PieceLength(index), g.chunkSize);
    hide Quot, Rem, CeilDiv, G.Geo.PieceOffset, G.Geo.ChunksPerPiece, G.Geo.PieceNumChunks, G.Geo.PieceLength;
    G.OffsetFits(g, index, k);
  }

  /** A received block that starts inside its piece is recorded under one of that piece's chunks. */
  lemma ReceivedChunk(g: G.Geo, index: nat, begin: nat)
    requires g.Valid() && index < g.pieces && begin < g.PieceLength(index)
    ensures 1 <= GridOf(g).last <= GridOf(g).perPiece
    ensures var r := g.FromRequest(G.Request(index, begin, 0));
            GridOf(g).IsChunk(r) && GridOf(g).PieceOf(r) == index
  {
    GridOfValid(g);
    var k := ReceivedIndex(g, index, begin);
    InPiece(GridOf(g), index, index * g.ChunksPerPiece() + k);
  }
}

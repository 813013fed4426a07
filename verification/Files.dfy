/**
  Files laid end to end over the torrent, the pieces that list them, and the piece ranges
  that a file or a reader asks to have re-evaluated.
*/
module Files {
  import opened Arith
  import G = Geometry

  /** Offset of file `k`: the files before it, end to end. */
  function Off(lengths: seq<nat>, k: nat): nat
    requires k <= |lengths|
  {
    if k == 0 then 0 else Off(lengths, k - 1) + lengths[k - 1]
  }

  function Total(lengths: seq<nat>): nat {
    Off(lengths, |lengths|)
  }

  /** First file at or after `k` that ends beyond `offset`; 0 if none does. */
  function FirstFile(lengths: seq<nat>, offset: nat, k: nat): (r: nat)
    requires k <= |lengths|
    decreases |lengths| - k
  {
    if k == |lengths| then 0
    else if Off(lengths, k + 1) > offset then k
    else FirstFile(lengths, offset, k + 1)
  }

  /** One past the first file at or after `k` that reaches `end`; 0 if none does. */
  function EndFile(lengths: seq<nat>, end: nat, k: nat): (r: nat)
    requires k <= |lengths|
    decreases |lengths| - k
  {
    if k == |lengths| then 0
    else if Off(lengths, k + 1) >= end then k + 1
    else EndFile(lengths, end, k + 1)
  }

  /** The files a piece lists, as a range of file indices. */
  function PieceFiles(g: G.Geo, lengths: seq<nat>, i: nat): (nat, nat) {
    var begin := i * g.pieceSize;
    (FirstFile(lengths, begin, 0), EndFile(lengths, begin + g.PieceLength(i), 0))
  }

  predicate Lists(g: G.Geo, lengths: seq<nat>, i: nat, k: nat) {
    var (first, end) := PieceFiles(g, lengths, i);
    first <= k < end
  }

  function BeginPiece(g: G.Geo, lengths: seq<nat>, k: nat): nat
    requires k < |lengths|
  {
    if g.pieceSize == 0 then 0 else Quot(Off(lengths, k), g.pieceSize)
  }

  function EndPiece(g: G.Geo, lengths: seq<nat>, k: nat): nat
    requires k < |lengths|
  {
    if g.pieceSize == 0 then 0 else Quot(Off(lengths, k) + lengths[k] + g.pieceSize - 1, g.pieceSize)
  }

  /** `validateInfo`: with no piece length there must be no data, and then any number of pieces is accepted. */
  ghost predicate Accepted(g: G.Geo, lengths: seq<nat>) {
    && g.length == Total(lengths)
    && if g.pieceSize == 0 then g.length == 0 else CeilDiv(g.length, g.pieceSize) == g.pieces
  }

  lemma {:induction false} OffMonotone(lengths: seq<nat>, j: nat, k: nat)
    requires j <= k <= |lengths|
    ensures Off(lengths, j) <= Off(lengths, k)
    decreases k
  {
    if j < k {
      OffMonotone(lengths, j, k - 1);
    }
  }

  lemma {:induction false} FirstFileIs(lengths: seq<nat>, offset: nat, k: nat)
    requires k < |lengths| && Total(lengths) > offset
    requires Off(lengths, k) <= offset
    ensures var r := FirstFile(lengths, offset, k);
            k <= r < |lengths| && Off(lengths, r) <= offset < Off(lengths, r + 1)
    decreases |lengths| - k
  {
    if Off(lengths, k + 1) <= offset {
      if k + 1 < |lengths| {
        FirstFileIs(lengths, offset, k + 1);
      }
    }
  }

  lemma {:induction false} EndFileIs(lengths: seq<nat>, end: nat, k: nat)
    requires k < |lengths| && Total(lengths) >= end
    requires Off(lengths, k) < end
    ensures var r := EndFile(lengths, end, k);
            k < r <= |lengths| && Off(lengths, r - 1) < end <= Off(lengths, r)
    decreases |lengths| - k
  {
    if Off(lengths, k + 1) < end {
      if k + 1 < |lengths| {
        EndFileIs(lengths, end, k + 1);
      }
    }
  }

  /** Where the listed slice starts and stops, in bytes. */
  lemma SliceIs(g: G.Geo, lengths: seq<nat>, i: nat)
    requires g.Valid() && Accepted(g, lengths) && i < g.pieces
    ensures var (first, end) := PieceFiles(g, lengths, i);
            var begin := i * g.pieceSize;
            && first < end <= |lengths|
            && Off(lengths, first) <= begin < Off(lengths, first + 1)
            && Off(lengths, end - 1) < begin + g.PieceLength(i) <= Off(lengths, end)
  {
    G.PieceExtent(g, i);
    var begin := i * g.pieceSize;
    FirstFileIs(lengths, begin, 0);
    EndFileIs(lengths, begin + g.PieceLength(i), 0);
    var (first, end) := PieceFiles(g, lengths, i);
    if end <= first {
      OffMonotone(lengths, end, first);
    }
  }

  /**
    A file that holds data is listed by exactly the pieces in its range. An empty file is
    listed by no piece outside its range (it may be listed by none at all).
  */
  lemma ListedInRange(g: G.Geo, lengths: seq<nat>, i: nat, k: nat)
    requires g.Valid() && Accepted(g, lengths) && i < g.pieces && k < |lengths|
    ensures Lists(g, lengths, i, k) ==> BeginPiece(g, lengths, k) <= i < EndPiece(g, lengths, k)
    ensures lengths[k] > 0 ==>
              (Lists(g, lengths, i, k) <==> BeginPiece(g, lengths, k) <= i < EndPiece(g, lengths, k))
  {
    SliceIs(g, lengths, i);
    G.PieceLengths(g, i);
    RangeMeans(g, lengths, i, k);
    hide BeginPiece, EndPiece, Off, G.Geo.PieceLength, G.Geo.Valid;
    var (first, end) := PieceFiles(g, lengths, i);
    hide PieceFiles;
    OffNext(lengths, k);
    OffMonotone(lengths, k + 1, |lengths|);
    if Lists(g, lengths, i, k) {
      OffMonotone(lengths, first + 1, k + 1);
      OffMonotone(lengths, k, end - 1);
    } else if k < first {
      OffMonotone(lengths, k + 1, first);
    } else {
      OffMonotone(lengths, end, k);
    }
  }

  lemma OffNext(lengths: seq<nat>, k: nat)
    requires k < |lengths|
    ensures Off(lengths, k + 1) == Off(lengths, k) + lengths[k]
  {
  }

  /** A piece lies in the file's range when it ends beyond the file's beginning and begins before its end. */
  lemma RangeMeans(g: G.Geo, lengths: seq<nat>, i: nat, k: nat)
    requires g.pieceSize > 0 && k < |lengths|
    ensures BeginPiece(g, lengths, k) <= i <==> Off(lengths, k) < i * g.pieceSize + g.pieceSize
    ensures i < EndPiece(g, lengths, k) <==> i * g.pieceSize < Off(lengths, k + 1)
  {
    hide Quot;
    DivBelow(Off(lengths, k), g.pieceSize, i + 1);
    assert (i + 1) * g.pieceSize == i * g.pieceSize + g.pieceSize;
    CeilAbove(Off(lengths, k + 1), g.pieceSize, i);
  }

  lemma CeilAbove(x: nat, d: nat, n: nat)
    requires d > 0
    ensures n < CeilDiv(x, d) <==> n * d < x
  {
    CeilDivBounds(x, d);
    var q := CeilDiv(x, d);
    if n < q {
      MulOrder(n, q - 1, d);
    } else {
      MulOrder(q, n, d);
    }
  }

  /** The range never leaves the torrent's pieces. */
  lemma RangeInside(g: G.Geo, lengths: seq<nat>, k: nat)
    requires g.Valid() && Accepted(g, lengths) && k < |lengths|
    ensures EndPiece(g, lengths, k) <= g.pieces
  {
    OffMonotone(lengths, k + 1, |lengths|);
    CeilAbove(g.length, g.pieceSize, g.pieces);
    CeilAbove(Off(lengths, k + 1), g.pieceSize, g.pieces);
  }

  /**
    Re-evaluating a file's range reaches every piece that lists the file exactly when pieces
    have a length: with piece length zero the range is empty although pieces still list the
    first file.
  */
  lemma RangesReachListers(g: G.Geo, lengths: seq<nat>)
    requires Accepted(g, lengths)
    requires g.pieceSize > 0 ==> g.Valid()
    ensures (forall i: nat, k: nat {:trigger Lists(g, lengths, i, k)} ::
               i < g.pieces && k < |lengths| && Lists(g, lengths, i, k)
               ==> BeginPiece(g, lengths, k) <= i < EndPiece(g, lengths, k))
            <==> g.pieceSize > 0 || g.pieces == 0 || |lengths| == 0
  {
    if g.pieceSize > 0 {
      forall i: nat, k: nat | i < g.pieces && k < |lengths| && Lists(g, lengths, i, k)
        ensures BeginPiece(g, lengths, k) <= i < EndPiece(g, lengths, k)
      {
        ListedInRange(g, lengths, i, k);
      }
    } else if |lengths| > 0 {
      NoneEndsBeyond(lengths, 0);
      assert Lists(g, lengths, 0, 0);
    }
  }

  lemma {:induction false} NoneEndsBeyond(lengths: seq<nat>, k: nat)
    requires k <= |lengths| && Total(lengths) == 0
    ensures FirstFile(lengths, 0, k) == 0
    decreases |lengths| - k
  {
    if k < |lengths| {
      OffMonotone(lengths, k + 1, |lengths|);
      NoneEndsBeyond(lengths, k + 1);
    }
  }

  // ---------- reader windows ----------

  /** Range of pieces that contains the extent of bytes. */
  function ByteRegionPieces(g: G.Geo, off: int, size: int): (nat, nat)
    requires g.pieceSize > 0
  {
    if off >= g.length then (0, 0)
    else
      var size1 := if off < 0 then size + off else size;
      var off1 := if off < 0 then 0 else off;
      if size1 <= 0 then (0, 0)
      else
        var end := Quot(off1 + size1 + g.pieceSize - 1, g.pieceSize);
        (Quot(off1, g.pieceSize), if end > g.pieces then g.pieces else end)
  }

  /** Piece `j` meets the bytes from `o` up to `e`. */
  ghost predicate Meets(g: G.Geo, o: nat, e: int, j: nat)
    requires g.pieceSize > 0
  {
    exists x: nat :: o <= x < e && x < g.length && Quot(x, g.pieceSize) == j
  }

  lemma MeetsWhen(g: G.Geo, o: nat, e: nat, j: nat)
    requires g.Valid() && o < e && o < g.length && j < g.pieces
    ensures Meets(g, o, e, j) <==> o < (j + 1) * g.pieceSize && j * g.pieceSize < e
  {
    hide Quot;
    var d := g.pieceSize;
    assert (j + 1) * d == j * d + d;
    if o < (j + 1) * d && j * d < e {
      G.PieceExtent(g, j);
      var x: nat := if o <= j * d then j * d else o;
      DivUnique(x, d, j);
      assert Meets(g, o, e, j);
    }
    forall x: nat | o <= x < e && x < g.length && Quot(x, d) == j ensures o < (j + 1) * d && j * d < e {
      QuotRem(x, d);
    }
  }

  lemma ProperWindow(g: G.Geo, o: nat, e: nat, j: nat)
    requires g.Valid() && o < e && o < g.length
    ensures var begin, top := Quot(o, g.pieceSize), CeilDiv(e, g.pieceSize);
            && begin < top && begin < g.pieces
            && (j < g.pieces ==> (begin <= j < top <==> Meets(g, o, e, j)))
  {
    hide Quot, CeilDiv, Meets;
    var d := g.pieceSize;
    G.Sizes(g);
    DivBelow(o, d, g.pieces);
    DivBelow(o, d, j + 1);
    CeilAbove(e, d, j);
    CeilAbove(e, d, Quot(o, d));
    QuotRem(o, d);
    if j < g.pieces {
      MeetsWhen(g, o, e, j);
    }
  }

  /** A piece is in the window exactly when one of its bytes is in the asked extent. */
  lemma WindowIsExact(g: G.Geo, off: int, size: int, j: nat)
    requires g.Valid()
    ensures var (begin, end) := ByteRegionPieces(g, off, size);
            && begin <= end <= g.pieces
            && (begin <= j < end <==> j < g.pieces && Meets(g, if off < 0 then 0 else off, off + size, j))
  {
    hide Quot;
    var o: nat := if off < 0 then 0 else off;
    if off < g.length && off + size > o {
      if o < g.length {
        ProperWindow(g, o, off + size, j);
      } else {
        DivUnique(0, g.pieceSize, 0);
        CeilDivBounds(0, g.pieceSize);
      }
    }
  }
}

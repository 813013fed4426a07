/** What holds at every release of the client lock, and that every step keeps it. */
module SchedulerInvariants {
  import opened Outcomes
  import opened Ledger
  import opened Grids
  import opened Scheduler
  import F = Files

  /** Peers with a write under way in piece `i`. */
  ghost function Writers(g: Grid, writing: map<PeerId, Req>, i: nat): set<PeerId> {
    set p | p in writing && g.PieceOf(writing[p]) == i
  }

  ghost predicate ChunksExist(g: Grid, pc: Pieces, b: Book) {
    && (forall r :: r in pc.dirty ==> g.IsChunk(r))
    && (forall r :: r in b.owner ==> g.IsChunk(r))
    && (forall p :: p in pc.writing ==> g.IsChunk(pc.writing[p]))
  }

  /** No dirty chunk is outstanding, and a complete piece has neither dirty nor outstanding chunks. */
  ghost predicate Separate(g: Grid, pc: Pieces, b: Book) {
    && (forall r :: r in b.owner ==> r !in pc.dirty && g.PieceOf(r) !in pc.complete)
    && (forall r :: r in pc.dirty ==> g.PieceOf(r) !in pc.complete)
  }

  ghost predicate WritesCounted(g: Grid, pc: Pieces) {
    forall i: nat :: Pending(pc, i) == |Writers(g, pc.writing, i)|
  }

  ghost predicate InTorrent(g: Grid, pc: Pieces) {
    && (forall i :: i in pc.complete ==> i < g.pieces)
    && (forall i :: i in pc.queued ==> i < g.pieces)
    && (forall i :: i in pc.hashing ==> i < g.pieces)
    && (forall i :: i in pc.marking ==> i < g.pieces)
  }

  /** One hasher per hashing or marking piece, within both caps. */
  ghost predicate HashersCounted(cfg: Config, pc: Pieces, others: nat) {
    && pc.hashing !! pc.marking
    && pc.active == |pc.hashing| + |pc.marking|
    && pc.active <= cfg.maxHashers
    && pc.active + others <= cfg.cpus
  }

  /** Piece `i` has all its data written, is not known to be good, and yet nothing will check it. */
  ghost predicate Stuck(g: Grid, pc: Pieces, i: nat) {
    && i < g.pieces && i !in pc.complete && g.AllDirty(pc.dirty, i) && Pending(pc, i) == 0
    && i !in pc.queued && i !in pc.hashing && i !in pc.marking
  }

  ghost predicate NoneStuck(s: State) {
    s.closed || forall i: nat :: !Stuck(s.cfg.grid, s.pc, i)
  }

  /** The cache of wanted pieces is right, except perhaps at `bad`. */
  ghost predicate CacheExactBut(s: State, bad: set<nat>) {
    forall i: nat :: (i in s.wants.pending ==> i < s.cfg.grid.pieces)
                     && (i !in bad ==> (i in s.wants.pending <==> Wanted(s, i)))
  }

  ghost predicate ReadersCached(s: State) {
    && s.wants.now == NowPieces(s.cfg.grid.pieces, s.wants.readers)
    && s.wants.readahead == AheadPieces(s.cfg.grid.pieces, s.wants.readers)
    && (forall id :: id in s.wants.readers ==> s.wants.readers[id].1 <= s.cfg.grid.pieces)
  }

  /** All but the cache, the hasher count and the stuck-freedom, which operations restore last. */
  ghost predicate Core(s: State) {
    && s.cfg.Valid()
    && WellSized(s.cfg, s.wants)
    && Sound(s.book)
    && ChunksExist(s.cfg.grid, s.pc, s.book)
    && Separate(s.cfg.grid, s.pc, s.book)
    && WritesCounted(s.cfg.grid, s.pc)
    && InTorrent(s.cfg.grid, s.pc)
    && ReadersCached(s)
  }

  ghost predicate Inv(s: State) {
    Core(s) && HashersCounted(s.cfg, s.pc, s.others) && NoneStuck(s) && CacheExactBut(s, {})
  }

  // ---------- priorities ----------

  /** `pending` plays no part in what is wanted. */
  lemma WantedIgnoresPending(s: State, pending: set<nat>, j: nat)
    ensures Wanted(s.(wants := s.wants.(pending := pending)), j) == Wanted(s, j)
  {
    var s1 := s.(wants := s.wants.(pending := pending));
    assert ListedPrios(s1.cfg, s1.wants, j) == ListedPrios(s.cfg, s.wants, j);
  }

  lemma ReprioritizeFixes(s: State, i: nat)
    requires CacheExactBut(s, {i}) && |s.wants.piecePrio| == s.cfg.grid.pieces
    ensures CacheExactBut(Reprioritize(s, i), {})
  {
    var s1 := Reprioritize(s, i);
    forall j: nat ensures Wanted(s1, j) == Wanted(s, j) {
      WantedIgnoresPending(s, s1.wants.pending, j);
    }
  }

  lemma RangeFixes(s: State, bad: set<nat>, begin: nat, end: nat)
    requires |s.wants.piecePrio| == s.cfg.grid.pieces && CacheExactBut(s, bad)
    ensures CacheExactBut(ReprioritizeRange(s, begin, end), set j | j in bad && !(begin <= j < end))
  {
    var s1 := ReprioritizeRange(s, begin, end);
    forall j: nat ensures Wanted(s1, j) == Wanted(s, j) {
      WantedIgnoresPending(s, s1.wants.pending, j);
    }
  }

  /** A reader's move changes reader priorities only inside its two windows. */
  lemma OtherReadersStay(readers: map<nat, (nat, nat)>, id: nat, to: (nat, nat), j: nat)
    requires id in readers
    requires !(readers[id].0 <= j < readers[id].1) && !(to.0 <= j < to.1)
    ensures ReadNow(readers[id := to], j) == ReadNow(readers, j)
    ensures ReadAhead(readers[id := to], j) == ReadAhead(readers, j)
  {
    var after := readers[id := to];
    if ReadNow(readers, j) {
      var k :| k in readers && readers[k].0 == j < readers[k].1;
      assert after[k].0 == j < after[k].1;
    }
    if ReadAhead(readers, j) {
      var k :| k in readers && readers[k].0 < j < readers[k].1;
      assert after[k].0 < j < after[k].1;
    }
  }

  /** Both branches of `readerPosChanged` re-evaluate every piece of both windows. */
  lemma BothWindowsReached(s: State, from: (nat, nat), to: (nat, nat))
    requires from != to && |s.wants.piecePrio| == s.cfg.grid.pieces
    requires CacheExactBut(UpdateReaderPieces(s), Span(from.0, from.1) + Span(to.0, to.1))
    ensures CacheExactBut(ReaderPosChanged(s, from, to), {})
  {
    hide CacheExactBut, Wanted, NowPieces, AheadPieces, Span, Interval;
    var s1, bad := UpdateReaderPieces(s), Span(from.0, from.1) + Span(to.0, to.1);
    var (l, h) := if from.0 > to.0 then (to, from) else (from, to);
    if l.1 < h.0 {
      RangeFixes(s1, bad, l.0, l.1);
      var rest := set j | j in bad && !(l.0 <= j < l.1);
      RangeFixes(ReprioritizeRange(s1, l.0, l.1), rest, h.0, h.1);
      assert (set j | j in rest && !(h.0 <= j < h.1)) == {};
    } else {
      RangeFixes(s1, bad, l.0, Max(l.1, h.1));
      assert (set j | j in bad && !(l.0 <= j < Max(l.1, h.1))) == {};
    }
  }

  lemma MoveIsLocal(s: State, id: nat, to: (nat, nat))
    requires Inv(s) && id in s.wants.readers
    ensures var from := s.wants.readers[id];
            var s1 := UpdateReaderPieces(s.(wants := s.wants.(readers := s.wants.readers[id := to])));
            CacheExactBut(s1, Span(from.0, from.1) + Span(to.0, to.1))
  {
    var from := s.wants.readers[id];
    var s1 := UpdateReaderPieces(s.(wants := s.wants.(readers := s.wants.readers[id := to])));
    forall j: nat | !(from.0 <= j < from.1) && !(to.0 <= j < to.1) ensures Wanted(s1, j) == Wanted(s, j) {
      if j < s.cfg.grid.pieces {
        OtherReadersStay(s.wants.readers, id, to, j);
        assert ListedPrios(s1.cfg, s1.wants, j) == ListedPrios(s.cfg, s.wants, j);
      }
    }
  }

  /** An operation on priorities has only to get the caches right. */
  lemma OnlyWantsChanged(s: State, w: Wants)
    requires Inv(s) && WellSized(s.cfg, w)
    requires ReadersCached(s.(wants := w)) && CacheExactBut(s.(wants := w), {})
    ensures Inv(s.(wants := w))
  {
  }

  /** A position change rewrites the reader caches and the pending pieces, nothing else. */
  lemma PosChangedShape(s: State, from: (nat, nat), to: (nat, nat))
    requires from != to
    ensures ReaderPosChanged(s, from, to) ==
            s.(wants := s.wants.(now := NowPieces(s.cfg.grid.pieces, s.wants.readers),
                                 readahead := AheadPieces(s.cfg.grid.pieces, s.wants.readers),
                                 pending := ReaderPosChanged(s, from, to).wants.pending))
  {
  }

  lemma MoveWindowKeeps(s: State, id: nat, to: (nat, nat))
    requires Inv(s) && id in s.wants.readers && to.1 <= s.cfg.grid.pieces
    ensures Inv(MoveWindow(s, id, to))
  {
    var from := s.wants.readers[id];
    var s0 := s.(wants := s.wants.(readers := s.wants.readers[id := to]));
    if from != to {
      MoveIsLocal(s, id, to);
      BothWindowsReached(s0, from, to);
      PosChangedShape(s0, from, to);
      OnlyWantsChanged(s, MoveWindow(s, id, to).wants);
    } else {
      assert s.wants.readers[id := to] == s.wants.readers;
    }
  }

  lemma DeleteReaderKeeps(s: State, id: nat)
    requires Inv(s)
    ensures Inv(DeleteReader(s, id))
  {
    var n := s.cfg.grid.pieces;
    var s1 := UpdateReaderPieces(s.(wants := s.wants.(readers := s.wants.readers - {id})));
    var bad := set j | 0 <= j < n && Wanted(s1, j) != Wanted(s, j);
    RangeFixes(s1, bad, 0, n);
    assert (set j | j in bad && !(0 <= j < n)) == {};
  }

  lemma SetFilePriorityKeeps(s: State, k: nat, prio: nat)
    requires Inv(s) && k < |s.cfg.lengths|
    ensures Inv(SetFilePriority(s, k, prio))
  {
    var begin, end := F.BeginPiece(s.cfg.geo, s.cfg.lengths, k), F.EndPiece(s.cfg.geo, s.cfg.lengths, k);
    var s1 := s.(wants := s.wants.(filePrio := s.wants.filePrio[k := prio]));
    var bad := Span(begin, end);
    forall j: nat | j !in bad ensures Wanted(s1, j) == Wanted(s, j) {
      if j < s.cfg.grid.pieces {
        F.ListedInRange(s.cfg.geo, s.cfg.lengths, j, k);
        F.SliceIs(s.cfg.geo, s.cfg.lengths, j);
        assert ListedPrios(s1.cfg, s1.wants, j) == ListedPrios(s.cfg, s.wants, j);
      }
    }
    RangeFixes(s1, bad, begin, end);
    assert (set j | j in bad && !(begin <= j < end)) == {};
  }

  lemma SetPiecePriorityKeeps(s: State, i: nat, prio: nat)
    requires Inv(s) && i < s.cfg.grid.pieces
    ensures Inv(SetPiecePriority(s, i, prio))
  {
    var s1 := s.(wants := s.wants.(piecePrio := s.wants.piecePrio[i := prio]));
    forall j: nat | j != i ensures Wanted(s1, j) == Wanted(s, j) {
      assert ListedPrios(s1.cfg, s1.wants, j) == ListedPrios(s.cfg, s.wants, j);
    }
    ReprioritizeFixes(s1, i);
  }

  lemma MapPiecePrioritiesKeeps(s: State, begin: nat, end: nat, f: nat -> nat)
    requires Inv(s)
    ensures Inv(MapPiecePriorities(s, begin, end, f))
  {
    var prios := s.wants.piecePrio;
    var after := seq(|prios|, i requires 0 <= i < |prios| => if begin <= i < end then f(prios[i]) else prios[i]);
    var s1 := s.(wants := s.wants.(piecePrio := after));
    var bad := Span(begin, end);
    forall j: nat | j !in bad ensures Wanted(s1, j) == Wanted(s, j) {
      assert ListedPrios(s1.cfg, s1.wants, j) == ListedPrios(s.cfg, s.wants, j);
    }
    RangeFixes(s1, bad, begin, end);
    assert (set j | j in bad && !(begin <= j < end)) == {};
  }
}

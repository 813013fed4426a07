/** Queueing, hashing, marking and completing pieces keep the invariant. */
module SchedulerPieces {
  import opened Outcomes
  import opened Ledger
  import opened Grids
  import opened Scheduler
  import opened SchedulerInvariants

  /** What is wanted depends on a piece's own state only. */
  lemma WantedLocal(s: State, s1: State, j: nat)
    requires s1.cfg == s.cfg && s1.wants.(pending := {}) == s.wants.(pending := {})
    requires Busy(s1.pc, j) == Busy(s.pc, j)
    ensures Wanted(s1, j) == Wanted(s, j)
  {
    assert ListedPrios(s1.cfg, s1.wants, j) == ListedPrios(s.cfg, s.wants, j);
  }

  /** Changing the state of piece `i` alone leaves the cache right elsewhere. */
  lemma CacheElsewhere(s: State, s1: State, i: nat)
    requires CacheExactBut(s, {i}) && s1.cfg == s.cfg && s1.wants == s.wants
    requires forall j: nat :: j != i ==> Busy(s1.pc, j) == Busy(s.pc, j)
    ensures CacheExactBut(s1, {i})
    ensures CacheExactBut(s, {}) && Busy(s1.pc, i) == Busy(s.pc, i) ==> CacheExactBut(s1, {})
  {
    forall j: nat | Busy(s1.pc, j) == Busy(s.pc, j) ensures Wanted(s1, j) == Wanted(s, j) {
      WantedLocal(s, s1, j);
    }
  }

  /** Changing piece `i` alone leaves no other piece stuck. */
  lemma StuckElsewhere(g: Grid, pc: Pieces, pc1: Pieces, i: nat, j: nat)
    requires j != i && !Stuck(g, pc, j)
    requires forall r :: g.PieceOf(r) != i ==> (r in pc1.dirty <==> r in pc.dirty)
    requires (j in pc1.complete <==> j in pc.complete) && (j in pc.queued ==> j in pc1.queued)
    requires (j in pc1.hashing <==> j in pc.hashing) && (j in pc1.marking <==> j in pc.marking)
    requires Pending(pc1, j) == Pending(pc, j)
    ensures !Stuck(g, pc1, j)
  {
    SameDirtySameCount(g, pc.dirty, pc1.dirty, j);
  }

  // ---------- hashers ----------

  lemma StartHashingKeeps(s: State, i: nat)
    requires Inv(s) && NextHash(s) == Some(i)
    ensures Inv(StartHashing(s, i))
  {
    var s1 := s.(pc := s.pc.(queued := s.pc.queued - {i}, hashing := s.pc.hashing + {i}));
    CacheElsewhere(s, s1, i);
    ReprioritizeFixes(s1, i);
    var s2 := StartHashing(s, i);
    CacheElsewhere(Reprioritize(s1, i), s2, i);
    forall j: nat | !s.closed ensures !Stuck(s2.cfg.grid, s2.pc, j) {
      assert !Stuck(s.cfg.grid, s.pc, j);
    }
  }

  lemma {:induction false} FillHashersKeeps(s: State)
    requires Inv(s)
    ensures Inv(FillHashers(s))
    decreases |s.pc.queued|
  {
    match NextHash(s)
    case None =>
    case Some(i) =>
      StartHashingKeeps(s, i);
      FillHashersKeeps(StartHashing(s, i));
  }

  /** Queueing a piece is exactly what frees it from being stuck. */
  lemma QueueCheckKeeps(s: State, i: nat)
    requires Core(s) && HashersCounted(s.cfg, s.pc, s.others) && CacheExactBut(s, {}) && i < s.cfg.grid.pieces
    requires s.closed || forall j: nat :: j != i ==> !Stuck(s.cfg.grid, s.pc, j)
    ensures Inv(QueueCheck(s, i))
  {
    if i !in s.pc.queued {
      var s1 := s.(pc := s.pc.(queued := s.pc.queued + {i}));
      CacheElsewhere(s, s1, i);
      ReprioritizeFixes(s1, i);
      var s2 := Reprioritize(s1, i);
      forall j: nat | !s.closed ensures !Stuck(s2.cfg.grid, s2.pc, j) {
        if j != i {
          StuckElsewhere(s.cfg.grid, s.pc, s2.pc, i, j);
        }
      }
      FillHashersKeeps(s2);
    }
  }

  lemma FinishHashKeeps(s: State, i: nat)
    requires Core(s) && NoneStuck(s) && CacheExactBut(s, {i}) && i < s.cfg.grid.pieces
    requires s.pc.active >= 1 && HashersCounted(s.cfg, s.pc.(active := s.pc.active - 1), s.others)
    ensures Inv(FinishHash(s, i))
  {
    var s1 := Reprioritize(s, i);
    SlotGivenBack(s, i);
    hide Inv, Core, Reprioritize;
    FillHashersKeeps(s1.(pc := s1.pc.(active := s1.pc.active - 1)));
  }

  lemma SlotGivenBack(s: State, i: nat)
    requires Core(s) && NoneStuck(s) && CacheExactBut(s, {i}) && i < s.cfg.grid.pieces
    requires s.pc.active >= 1 && HashersCounted(s.cfg, s.pc.(active := s.pc.active - 1), s.others)
    ensures var s1 := Reprioritize(s, i); Inv(s1.(pc := s1.pc.(active := s1.pc.active - 1)))
  {
    ReprioritizeFixes(s, i);
    var s1 := Reprioritize(s, i);
    var s2 := s1.(pc := s1.pc.(active := s1.pc.active - 1));
    CacheElsewhere(s1, s2, i);
    forall j: nat | !s.closed ensures !Stuck(s2.cfg.grid, s2.pc, j) {
      assert !Stuck(s.cfg.grid, s.pc, j);
    }
  }

  // ---------- completion ----------

  /** Clearing a piece's dirty bits: it is then not all dirty, and nothing else changes. */
  lemma PendAllKeeps(s: State, i: nat)
    requires Core(s) && i < s.cfg.grid.pieces
    ensures var d := PendAll(s.cfg.grid, s.pc.dirty, i);
            && Core(s.(pc := s.pc.(dirty := d)))
            && !s.cfg.grid.AllDirty(d, i)
  {
    FirstChunk(s.cfg.grid, i);
    CleanChunk(s.cfg.grid, PendAll(s.cfg.grid, s.pc.dirty, i), s.cfg.grid.First(i));
  }

  lemma OnIncompleteKeeps(s: State, i: nat)
    requires Core(s) && i < s.cfg.grid.pieces
    ensures Core(OnIncomplete(s, i)) && !s.cfg.grid.AllDirty(OnIncomplete(s, i).pc.dirty, i)
  {
    PendAllKeeps(s, i);
  }

  /** A piece's chunks are the only requests its completion can cancel. */
  lemma OnCompletedKeeps(s: State, i: nat)
    requires Core(s) && i < s.cfg.grid.pieces && i !in s.pc.complete
    ensures var s1 := OnCompleted(s, i);
            Core(s1.(pc := s1.pc.(complete := s.pc.complete + {i})))
  {
    PendAllKeeps(s, i);
    WithoutChunksSafe(s.book, s.cfg.grid.ChunksOf(i));
    forall r: nat ensures r in s.cfg.grid.ChunksOf(i) <==> s.cfg.grid.IsChunk(r) && s.cfg.grid.PieceOf(r) == i {
      InPiece(s.cfg.grid, i, r);
    }
  }

  /** Where `updateCompletion` may leave a trace: the piece's own dirty bits and completion, and requests for it. */
  ghost predicate TouchesOnly(s: State, s1: State, i: nat) {
    && s1.cfg == s.cfg && s1.others == s.others && s1.closed == s.closed
    && s1.wants.(pending := {}) == s.wants.(pending := {})
    && s1.pc == s.pc.(dirty := s1.pc.dirty, complete := s1.pc.complete)
    && s1.pc.dirty <= s.pc.dirty
    && (forall r :: s.cfg.grid.PieceOf(r) != i ==> (r in s1.pc.dirty <==> r in s.pc.dirty))
    && (forall j :: j != i ==> (j in s1.pc.complete <==> j in s.pc.complete))
  }

  /** Completing a complete piece again finds nothing to clear. */
  lemma CompletedAgain(s: State, i: nat)
    requires Core(s) && i < s.cfg.grid.pieces && i in s.pc.complete
    ensures Core(OnCompleted(s, i)) && OnCompleted(s, i).pc == s.pc
  {
    assert PendAll(s.cfg.grid, s.pc.dirty, i) == s.pc.dirty;
    WithoutChunksSafe(s.book, s.cfg.grid.ChunksOf(i));
  }

  lemma PendingIsNotCore(s: State, pending: set<nat>)
    requires Core(s)
    ensures Core(s.(wants := s.wants.(pending := pending)))
  {
  }

  lemma CompletionKnownCore(s: State, i: nat, okChanged: bool)
    requires Core(s) && i < s.cfg.grid.pieces
    ensures var s1 := UpdateCompletion(s, i, true, okChanged);
            Core(s1) && TouchesOnly(s, s1, i) && i in s1.pc.complete
  {
    var was := s.pc.complete;
    var s1 := s.(pc := s.pc.(complete := was + {i}));
    var s2 := OnCompleted(s1, i);
    if i in was {
      assert was + {i} == was;
      assert s1 == s;
      CompletedAgain(s, i);
    } else {
      OnCompletedKeeps(s, i);
      assert s2.pc == OnCompleted(s, i).pc.(complete := was + {i});
    }
    PendingIsNotCore(s2, Reprioritize(s2, i).wants.pending);
  }

  lemma IncompletionKnownCore(s: State, i: nat, okChanged: bool)
    requires Core(s) && i < s.cfg.grid.pieces
    ensures var s1 := UpdateCompletion(s, i, false, okChanged);
            && Core(s1) && TouchesOnly(s, s1, i) && i !in s1.pc.complete
            && (i in s.pc.complete || okChanged ==> !s.cfg.grid.AllDirty(s1.pc.dirty, i))
  {
    var s1 := s.(pc := s.pc.(complete := s.pc.complete - {i}));
    assert Core(s1);
    OnIncompleteKeeps(s1, i);
    PendingIsNotCore(OnIncomplete(s1, i), Reprioritize(OnIncomplete(s1, i), i).wants.pending);
  }

  lemma UpdateCompletionCore(s: State, i: nat, complete: bool, okChanged: bool)
    requires Core(s) && i < s.cfg.grid.pieces
    ensures var s1 := UpdateCompletion(s, i, complete, okChanged);
            && Core(s1) && TouchesOnly(s, s1, i)
            && (i in s1.pc.complete <==> complete)
            && (!complete && (i in s.pc.complete || okChanged) ==> !s.cfg.grid.AllDirty(s1.pc.dirty, i))
  {
    if complete {
      CompletionKnownCore(s, i, okChanged);
    } else {
      IncompletionKnownCore(s, i, okChanged);
    }
  }

  lemma UpdateCompletionCache(s: State, i: nat, complete: bool, okChanged: bool)
    requires Core(s) && i < s.cfg.grid.pieces && CacheExactBut(s, {})
    ensures CacheExactBut(UpdateCompletion(s, i, complete, okChanged), {})
  {
    UpdateCompletionCore(s, i, complete, okChanged);
    var was := s.pc.complete;
    var s1 := s.(pc := s.pc.(complete := if complete then was + {i} else was - {i}));
    if complete == (i in was) && !okChanged {
      assert s1.pc.complete == was;
    } else {
      var s2 := if complete then OnCompleted(s1, i) else OnIncomplete(s1, i);
      CacheElsewhere(s, s2, i);
      ReprioritizeFixes(s2, i);
    }
  }

  lemma UpdateCompletionKeeps(s: State, i: nat, complete: bool, okChanged: bool)
    requires Inv(s) && i < s.cfg.grid.pieces
    ensures Inv(UpdateCompletion(s, i, complete, okChanged))
  {
    UpdateCompletionCore(s, i, complete, okChanged);
    UpdateCompletionCache(s, i, complete, okChanged);
    var s1 := UpdateCompletion(s, i, complete, okChanged);
    forall j: nat | !s.closed ensures !Stuck(s1.cfg.grid, s1.pc, j) {
      assert !Stuck(s.cfg.grid, s.pc, j);
      if j != i {
        StuckElsewhere(s.cfg.grid, s.pc, s1.pc, i, j);
      } else if !complete && i !in s.pc.complete && !okChanged {
        assert s.pc.complete - {i} == s.pc.complete;
      }
    }
  }

  // ---------- the end of a hash ----------

  lemma HashPassedKeeps(s: State, i: nat)
    requires Inv(s) && i in s.pc.hashing
    ensures Inv(HashPassed(s, i))
  {
    var s1 := s.(pc := s.pc.(hashing := s.pc.hashing - {i}));
    if s.closed {
      CacheElsewhere(s, s1, i);
      FinishHashKeeps(s1, i);
    } else {
      var s2 := s1.(pc := s1.pc.(marking := s1.pc.marking + {i}));
      CacheElsewhere(s, s2, i);
      forall j: nat ensures !Stuck(s2.cfg.grid, s2.pc, j) {
        assert !Stuck(s.cfg.grid, s.pc, j);
      }
    }
  }

  /** The last part, shared by a passed and a failed hash: the piece stops marking. */
  lemma StopMarkingKeeps(s: State, i: nat)
    requires Core(s) && CacheExactBut(s, {}) && HashersCounted(s.cfg, s.pc, s.others) && i in s.pc.marking
    requires s.closed || (i !in s.pc.complete ==> !s.cfg.grid.AllDirty(s.pc.dirty, i))
    requires s.closed || forall j: nat :: j != i ==> !Stuck(s.cfg.grid, s.pc, j)
    ensures Inv(FinishHash(s.(pc := s.pc.(marking := s.pc.marking - {i})), i))
  {
    var s1 := s.(pc := s.pc.(marking := s.pc.marking - {i}));
    CacheElsewhere(s, s1, i);
    forall j: nat | !s.closed ensures !Stuck(s1.cfg.grid, s1.pc, j) {
      if j != i {
        StuckElsewhere(s.cfg.grid, s.pc, s1.pc, i, j);
      }
    }
    FinishHashKeeps(s1, i);
  }

  /** A piece that had its dirty bits cleared, or is found incomplete, is not all dirty when storage has answered. */
  lemma AnsweredNotDirty(s: State, i: nat, complete: bool, okChanged: bool)
    requires Core(s) && CacheExactBut(s, {}) && HashersCounted(s.cfg, s.pc, s.others) && i in s.pc.marking
    requires !s.cfg.grid.AllDirty(s.pc.dirty, i)
    requires forall j: nat :: j != i ==> !Stuck(s.cfg.grid, s.pc, j)
    ensures var s1 := UpdateCompletion(s, i, complete, okChanged);
            Inv(FinishHash(s1.(pc := s1.pc.(marking := s1.pc.marking - {i})), i))
  {
    UpdateCompletionCore(s, i, complete, okChanged);
    UpdateCompletionCache(s, i, complete, okChanged);
    var s1 := UpdateCompletion(s, i, complete, okChanged);
    AllDirtyMeans(s.cfg.grid, s.pc.dirty, i);
    AllDirtyMeans(s.cfg.grid, s1.pc.dirty, i);
    forall j: nat | j != i ensures !Stuck(s1.cfg.grid, s1.pc, j) {
      StuckElsewhere(s.cfg.grid, s.pc, s1.pc, i, j);
    }
    StopMarkingKeeps(s1, i);
  }

  lemma MarkDoneKeeps(s: State, i: nat, complete: bool, okChanged: bool)
    requires Inv(s) && i in s.pc.marking
    ensures Inv(MarkDone(s, i, complete, okChanged))
  {
    if s.closed {
      StopMarkingKeeps(s, i);
    } else {
      PendAllKeeps(s, i);
      var s1 := s.(pc := s.pc.(dirty := PendAll(s.cfg.grid, s.pc.dirty, i)));
      CacheElsewhere(s, s1, i);
      forall j: nat | j != i ensures !Stuck(s1.cfg.grid, s1.pc, j) {
        StuckElsewhere(s.cfg.grid, s.pc, s1.pc, i, j);
      }
      AnsweredNotDirty(s1, i, complete, okChanged);
    }
  }

  lemma HashFailedKeeps(s: State, i: nat, complete: bool, okChanged: bool)
    requires Inv(s) && i in s.pc.hashing
    ensures Inv(HashFailed(s, i, complete, okChanged))
  {
    if s.closed {
      HashPassedKeeps(s, i);
    } else {
      HashPassedKeeps(s, i);
      var s2 := HashPassed(s, i);
      OnIncompleteKeeps(s2, i);
      var s3 := OnIncomplete(s2, i);
      CacheElsewhere(s2, s3, i);
      forall j: nat | j != i ensures !Stuck(s3.cfg.grid, s3.pc, j) {
        StuckElsewhere(s2.cfg.grid, s2.pc, s3.pc, i, j);
      }
      AnsweredNotDirty(s3, i, complete, okChanged);
    }
  }
}

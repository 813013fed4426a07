/** Stealing evens out load, the pipeline limit holds, and hashers idle beside queued work only after a slot freed elsewhere. */
module SchedulerBalance {
  import opened Outcomes
  import opened Ledger
  import opened Grids
  import opened Scheduler
  import opened SchedulerInvariants
  import opened SchedulerPieces
  import opened SchedulerSafety

  // ---------- the pipeline limit ----------

  lemma MakeRequestGrowsByOne(s: State, p: PeerId, r: Req, limit: int)
    requires p in s.book.peers && MakeRequest(s, p, r, limit).Done?
    ensures Outstanding(MakeRequest(s, p, r, limit).value.0, p) <= Outstanding(s.book, p) + 1
  {
  }

  lemma PullGrowsByOne(s: State, p: PeerId, pull: Pull)
    requires Core(s) && Grantable(s, p, pull.req)
    ensures TryPull(s, p, pull).Done?
    ensures Outstanding(TryPull(s, p, pull).value.0, p) <= Outstanding(s.book, p) + 1
  {
    hide Core, MakeRequest, CancelRequest;
    TryPullSafe(s, p, pull);
    var r := pull.req;
    if r !in s.book.owner || s.book.owner[r] == p {
      MakeRequestGrowsByOne(s, p, r, pull.limit);
    } else if MaySteal(s.book, p, s.book.owner[r]) {
      TakenAway(s, p, r);
      var s1 := s.(book := CancelRequest(s.book, r).value);
      MakeRequestGrowsByOne(s1, p, r, pull.limit);
      assert Outstanding(s1.book, p) == Outstanding(s.book, p);
    }
  }

  /** Requests plus unanswered cancels end at most at the larger of their starting number and the snapshotted limit. */
  lemma {:induction false} PipelineLimitHolds(s: State, p: PeerId, pulls: seq<Pull>, maxReq: int)
    requires Core(s) && p in s.book.peers
    requires forall k :: 0 <= k < |pulls| ==> Grantable(s, p, pulls[k].req)
    ensures ApplyPulls(s, p, pulls, maxReq).Done? && p in ApplyPulls(s, p, pulls, maxReq).value.book.peers
    ensures var after := Outstanding(ApplyPulls(s, p, pulls, maxReq).value.book, p);
            after <= Outstanding(s.book, p) || after <= maxReq
    decreases |pulls|
  {
    if pulls != [] && Outstanding(s.book, p) < maxReq {
      TryPullSafe(s, p, pulls[0]);
      PullGrowsByOne(s, p, pulls[0]);
      var (b, go) := TryPull(s, p, pulls[0]).value;
      if go {
        var s1 := s.(book := b);
        forall k | 0 <= k < |pulls[1..]| ensures Grantable(s1, p, pulls[1..][k].req) {
          assert Grantable(s, p, pulls[k + 1].req);
        }
        PipelineLimitHolds(s1, p, pulls[1..], maxReq);
      }
    }
  }

  // ---------- stealing ----------

  /** Sum over `ps` of the squared number of outstanding requests. */
  ghost function Squares(b: Book, ps: set<PeerId>): nat {
    if ps == {} then 0 else
      var p :| p in ps;
      Load(b, p) * Load(b, p) + Squares(b, ps - {p})
  }

  lemma {:induction false} SquaresWithout(b: Book, ps: set<PeerId>, p: PeerId)
    requires p in ps
    ensures Squares(b, ps) == Load(b, p) * Load(b, p) + Squares(b, ps - {p})
    decreases ps
  {
    var q :| q in ps && Squares(b, ps) == Load(b, q) * Load(b, q) + Squares(b, ps - {q});
    if q != p {
      SquaresWithout(b, ps - {q}, p);
      SquaresWithout(b, ps - {p}, q);
      assert ps - {p} - {q} == ps - {q} - {p};
    }
  }

  lemma {:induction false} SquaresFrame(b: Book, b1: Book, ps: set<PeerId>)
    requires forall p :: p in ps ==> Load(b1, p) == Load(b, p)
    ensures Squares(b1, ps) == Squares(b, ps)
    decreases ps
  {
    if ps != {} {
      var p :| p in ps;
      SquaresWithout(b, ps, p);
      SquaresWithout(b1, ps, p);
      SquaresFrame(b, b1, ps - {p});
    }
  }

  lemma SquaresOfTwo(b: Book, b1: Book, ps: set<PeerId>, p: PeerId, q: PeerId)
    requires p in ps && q in ps && p != q
    requires forall k :: k in ps && k != p && k != q ==> Load(b1, k) == Load(b, k)
    ensures Squares(b1, ps) - Squares(b, ps)
            == Load(b1, p) * Load(b1, p) + Load(b1, q) * Load(b1, q)
               - Load(b, p) * Load(b, p) - Load(b, q) * Load(b, q)
  {
    SquaresWithout(b, ps, p);
    SquaresWithout(b, ps - {p}, q);
    SquaresWithout(b1, ps, p);
    SquaresWithout(b1, ps - {p}, q);
    SquaresFrame(b, b1, ps - {p} - {q});
  }

  lemma CancelLoads(b: Book, r: Req)
    requires Sound(b) && r in b.owner
    ensures CancelRequest(b, r).Done?
    ensures var b1, q := CancelRequest(b, r).value, b.owner[r];
            && Load(b, q) >= 1 && Load(b1, q) == Load(b, q) - 1
            && (forall k :: k != q ==> Load(b1, k) == Load(b, k))
  {
    var q := b.owner[r];
    assert q in b.peers && r in b.peers[q].requests;
    CancelRequestEffect(b, r, q);
    forall k | k != q && k in b.peers ensures Load(CancelRequest(b, r).value, k) == Load(b, k) {
      RecordsMirror(b, k, r);
      CancelRequestEffect(b, r, k);
    }
    hide Sound, CancelRequest;
  }

  /** Loads after taking `r` from `q`: the victim has one less, the taker one more or (refused) as many. */
  ghost predicate Moved(b: Book, b1: Book, p: PeerId, q: PeerId) {
    && Load(b, q) >= 1 && Load(b1, q) == Load(b, q) - 1
    && (Load(b1, p) == Load(b, p) + 1 || Load(b1, p) == Load(b, p))
    && (forall k :: k != p && k != q ==> Load(b1, k) == Load(b, k))
  }

  lemma StealLoads(s: State, p: PeerId, pull: Pull)
    requires Core(s) && Grantable(s, p, pull.req)
    requires pull.req in s.book.owner && s.book.owner[pull.req] != p
    requires MaySteal(s.book, p, s.book.owner[pull.req])
    ensures TryPull(s, p, pull).Done?
    ensures Moved(s.book, TryPull(s, p, pull).value.0, p, s.book.owner[pull.req])
  {
    var r := pull.req;
    TakenAway(s, p, r);
    CancelLoads(s.book, r);
    var s1 := s.(book := CancelRequest(s.book, r).value);
    MadeLoads(s1, p, r, pull.limit);
    assert TryPull(s, p, pull).value.0 == MakeRequest(s1, p, r, pull.limit).value.0;
  }

  lemma MadeLoads(s: State, p: PeerId, r: Req, limit: int)
    requires Core(s) && Grantable(s, p, r) && r !in s.book.owner
    ensures MakeRequest(s, p, r, limit).Done?
    ensures var b1 := MakeRequest(s, p, r, limit).value.0;
            && (Load(b1, p) == Load(s.book, p) + 1 || Load(b1, p) == Load(s.book, p))
            && (forall k :: k != p ==> Load(b1, k) == Load(s.book, k))
  {
    assert r !in s.book.peers[p].requests;
  }

  lemma StealArithmetic(a: nat, c: nat, a1: nat)
    requires a + 1 <= c && (a1 == a + 1 || a1 == a)
    ensures a1 * a1 + (c - 1) * (c - 1) <= a * a + c * c
    ensures a1 * a1 + (c - 1) * (c - 1) == a * a + c * c ==> a1 == a + 1 == c
  {
    assert (a + 1) * (a + 1) == a * a + 2 * a + 1;
    assert (c - 1) * (c - 1) == c * c - 2 * c + 1;
  }

  lemma SquaresDrop(b: Book, b1: Book, ps: set<PeerId>, p: PeerId, q: PeerId)
    requires p in ps && q in ps && p != q && Moved(b, b1, p, q) && Load(b, p) + 1 <= Load(b, q)
    ensures Squares(b1, ps) <= Squares(b, ps)
    ensures Squares(b1, ps) == Squares(b, ps) ==>
              Load(b, q) == Load(b, p) + 1 && Load(b1, p) == Load(b, q) && Load(b1, q) == Load(b, p)
  {
    SquaresOfTwo(b, b1, ps, p, q);
    StealArithmetic(Load(b, p), Load(b, q), Load(b1, p));
  }

  /**
    A steal never increases the sum of squared loads over any set of peers holding both
    parties, and strictly decreases it unless the two loads differed by one and are swapped.
  */
  lemma StealEvensLoad(s: State, p: PeerId, pull: Pull, ps: set<PeerId>)
    requires Core(s) && Grantable(s, p, pull.req)
    requires pull.req in s.book.owner && s.book.owner[pull.req] != p
    requires MaySteal(s.book, p, s.book.owner[pull.req])
    requires p in ps && s.book.owner[pull.req] in ps
    ensures TryPull(s, p, pull).Done?
    ensures var b, b1, q := s.book, TryPull(s, p, pull).value.0, s.book.owner[pull.req];
            && Squares(b1, ps) <= Squares(b, ps)
            && (Squares(b1, ps) == Squares(b, ps) ==>
                  Load(b, q) == Load(b, p) + 1 && Load(b1, p) == Load(b, q) && Load(b1, q) == Load(b, p))
  {
    StealLoads(s, p, pull);
    SquaresDrop(s.book, TryPull(s, p, pull).value.0, ps, p, s.book.owner[pull.req]);
  }

  // ---------- hashers ----------

  /** No hasher could be started now: every queued piece is busy, or a cap is reached, or the torrent is closed. */
  ghost predicate Saturated(s: State) {
    NextHash(s).None?
  }

  lemma {:induction false} NoneFree(pc: Pieces, i: nat, n: nat)
    requires i <= n
    ensures PieceToHash(pc, i, n).None? <==>
              forall j :: i <= j < n && j in pc.queued ==> j in pc.hashing || j in pc.marking
    decreases n - i
  {
    if i < n {
      NoneFree(pc, i + 1, n);
    }
  }

  /** In the torrent's own terms: it is closed, a cap is reached, or every queued piece is being hashed or marked. */
  lemma SaturatedMeans(s: State)
    requires InTorrent(s.cfg.grid, s.pc)
    ensures Saturated(s) <==> || s.closed || s.pc.active >= s.cfg.maxHashers || s.pc.active + s.others >= s.cfg.cpus
                              || forall i :: i in s.pc.queued ==> i in s.pc.hashing || i in s.pc.marking
  {
    NoneFree(s.pc, 0, s.cfg.grid.pieces);
  }

  lemma {:induction false} FillSaturates(s: State)
    ensures Saturated(FillHashers(s))
    decreases |s.pc.queued|
  {
    match NextHash(s)
    case None =>
    case Some(i) => FillSaturates(StartHashing(s, i));
  }

  lemma SaturatedAlike(s: State, s1: State)
    requires Saturated(s) && s1.cfg == s.cfg && s1.closed == s.closed && s1.others >= s.others
    requires s1.pc.active == s.pc.active && s1.pc.queued == s.pc.queued
    requires s1.pc.hashing + s1.pc.marking >= s.pc.hashing + s.pc.marking
    ensures Saturated(s1)
  {
    NoneFree(s.pc, 0, s.cfg.grid.pieces);
    NoneFree(s1.pc, 0, s.cfg.grid.pieces);
    forall j | j in s.pc.hashing + s.pc.marking ensures j in s1.pc.hashing + s1.pc.marking {
    }
  }

  lemma CompletionSaturated(s: State, i: nat, complete: bool, okChanged: bool)
    requires Saturated(s)
    ensures Saturated(UpdateCompletion(s, i, complete, okChanged))
  {
    SaturatedAlike(s, UpdateCompletion(s, i, complete, okChanged));
  }

  lemma HashStepSaturates(s: State, e: Event)
    requires Inv(s) && Saturated(s) && Step(s, e).Next?
    requires AboutHashes(e)
    ensures Saturated(Step(s, e).state)
  {
    assert s.cfg.geo.Valid();
    hide Inv, Saturated, UpdateCompletion, QueueCheck, HashPassed, MarkDone, HashFailed, WantsStep;
    match e
    case Verify(i) => QueueSaturates(s, i);
    case Passed(i) => PassedSaturates(s, i);
    case Marked(i, complete, okChanged) => MarkedSaturates(s, i, complete, okChanged);
    case Failed(i, complete, okChanged) => FailedSaturates(s, i, complete, okChanged);
    case Completion(i, complete, okChanged) => CompletionSaturated(s, i, complete, okChanged);
  }

  lemma QueueSaturates(s: State, i: nat)
    requires Saturated(s)
    ensures Saturated(QueueCheck(s, i))
  {
    FillSaturates(Reprioritize(s.(pc := s.pc.(queued := s.pc.queued + {i})), i));
  }

  lemma PassedSaturates(s: State, i: nat)
    requires Saturated(s) && i in s.pc.hashing
    ensures Saturated(HashPassed(s, i))
  {
    if s.closed {
      FinishSaturates(s.(pc := s.pc.(hashing := s.pc.hashing - {i})), i);
    } else {
      SaturatedAlike(s, HashPassed(s, i));
    }
  }

  lemma MarkedSaturates(s: State, i: nat, complete: bool, okChanged: bool)
    ensures Saturated(MarkDone(s, i, complete, okChanged))
  {
    hide FinishHash, UpdateCompletion, Saturated;
    var s0 := s.(pc := s.pc.(dirty := PendAll(s.cfg.grid, s.pc.dirty, i)));
    var s1 := if s.closed then s else UpdateCompletion(s0, i, complete, okChanged);
    FinishSaturates(s1.(pc := s1.pc.(marking := s1.pc.marking - {i})), i);
  }

  lemma FailedSaturates(s: State, i: nat, complete: bool, okChanged: bool)
    ensures Saturated(HashFailed(s, i, complete, okChanged))
  {
    hide FinishHash, UpdateCompletion, OnIncomplete, Saturated;
    var s1 := s.(pc := s.pc.(hashing := s.pc.hashing - {i}));
    FinishSaturates(s1, i);
    var s3 := UpdateCompletion(OnIncomplete(s1.(pc := s1.pc.(marking := s1.pc.marking + {i})), i), i, complete, okChanged);
    FinishSaturates(s3.(pc := s3.pc.(marking := s3.pc.marking - {i})), i);
  }

  lemma FinishSaturates(s: State, i: nat)
    ensures Saturated(FinishHash(s, i))
  {
    var s1 := Reprioritize(s, i);
    FillSaturates(s1.(pc := s1.pc.(active := s1.pc.active - 1)));
  }

  lemma WriteSaturates(s: State, p: PeerId, ok: bool)
    requires Saturated(s) && p in s.pc.writing && EndWrite(s, p, ok, true, []).Done?
    ensures Saturated(EndWrite(s, p, ok, true, []).value)
  {
    var r := s.pc.writing[p];
    var i := s.cfg.grid.PieceOf(r);
    var pc1 := s.pc.(pendingWrites := s.pc.pendingWrites[i := Pending(s.pc, i) - 1], writing := s.pc.writing - {p});
    SaturatedAlike(s, s.(pc := pc1));
    SaturatedAlike(s, s.(pc := pc1.(dirty := pc1.dirty - {r})));
    FillSaturates(Reprioritize(s.(pc := pc1.(queued := pc1.queued + {i})), i));
  }

  lemma WriteDoneSaturates(s: State, e: Event)
    requires Inv(s) && Saturated(s) && e.WriteDone? && Step(s, e).Next?
    ensures Saturated(Step(s, e).state)
  {
    assert s.cfg.geo.Valid() && WellSized(s.cfg, s.wants);
    hide Inv, Saturated, VisitsActive, DisallowDownload;
    if e.ok || e.handled {
      EndWriteKeeps(s, e.p, e.ok, true, []);
      WriteSaturates(s, e.p, e.ok);
    } else {
      FailedWriteLeavesQueue(s, e);
      SaturatedAlike(s, Step(s, e).state);
    }
  }

  lemma FailedWriteLeavesQueue(s: State, e: Event)
    requires Inv(s) && e.WriteDone? && !e.ok && Step(s, e).Next?
    ensures SameQueue(s, Step(s, e).state)
  {
    assert s.cfg.geo.Valid();
    hide Inv, VisitsActive, CancelEverywhere, HashStep, WantsStep;
  }

  /** Nothing about the hash queue differs. */
  ghost predicate SameQueue(s: State, s1: State) {
    && s1.cfg == s.cfg && s1.closed == s.closed && s1.others == s.others
    && s1.pc.queued == s.pc.queued && s1.pc.hashing == s.pc.hashing && s1.pc.marking == s.pc.marking
    && s1.pc.active == s.pc.active
  }

  /** Steps on the ledger and received chunks leave the hash queue alone. */
  lemma LedgerStepLeavesQueue(s: State, e: Event)
    requires Inv(s) && Step(s, e).Next? && (e.OfPeer? || e.Receive?)
    ensures SameQueue(s, Step(s, e).state)
  {
    assert s.cfg.geo.Valid();
    hide Inv, PeerStep, ReceiveChunk, SameQueue, HashStep, WantsStep;
    if e.OfPeer? {
      PeerLeavesQueue(s, e.p, e.what);
    } else {
      ReceiveLeavesQueue(s, e.p, e.index, e.begin, e.now);
    }
  }

  lemma PeerLeavesQueue(s: State, p: PeerId, e: PeerEvent)
    ensures PeerStep(s, p, e).Next? ==> SameQueue(s, PeerStep(s, p, e).state)
  {
    hide RemoteRejected, WithoutRequests;
  }

  lemma ReceiveLeavesQueue(s: State, p: PeerId, index: nat, begin: nat, now: int)
    requires p in s.book.peers && s.cfg.geo.chunkSize > 0
    ensures ReceiveChunk(s, p, index, begin, now).Done? ==> SameQueue(s, ReceiveChunk(s, p, index, begin, now).value)
  {
    hide TakeChunk, CancelRequest;
  }

  lemma LedgerStepSaturated(s: State, e: Event)
    requires Inv(s) && Saturated(s) && Step(s, e).Next? && (e.OfPeer? || e.Receive? || e.UpdateRequests?)
    ensures Saturated(Step(s, e).state)
  {
    if e.UpdateRequests? {
      AppliesToBook(s, e.p, e.pulls, e.maxReq);
    } else {
      LedgerStepLeavesQueue(s, e);
    }
    SaturatedAlike(s, Step(s, e).state);
  }

  lemma WantsStepSaturated(s: State, e: Event)
    requires Inv(s) && Saturated(s) && Step(s, e).Next?
    requires AboutWants(e)
    ensures Saturated(Step(s, e).state)
  {
    WantsStepShape(s, e);
    hide Step, Saturated;
    SaturatedAlike(s, Step(s, e).state);
  }

  /**
    Work is conserved: once no hasher could be started, that stays so through every step
    except one, another torrent of the client giving a slot back, which wakes nobody here.
  */
  lemma HashersStayBusy(s: State, e: Event)
    requires Inv(s) && Saturated(s) && Step(s, e).Next?
    ensures (e.OtherHashers? && e.others < s.others) || Saturated(Step(s, e).state)
  {
    if e.OfPeer? || e.Receive? || e.UpdateRequests? {
      LedgerStepSaturated(s, e);
    } else if e.WriteDone? {
      WriteDoneSaturates(s, e);
    } else if AboutHashes(e) {
      HashStepSaturates(s, e);
    } else if e.OtherHashers? {
      if e.others >= s.others {
        SaturatedAlike(s, Step(s, e).state);
      }
    } else if e.StopDownload? {
      DisallowKeeps(s, e.visits);
      SaturatedAlike(s, Step(s, e).state);
    } else if e.AllowDownload? || e.MergeSpec? {
      SaturatedAlike(s, Step(s, e).state);
    } else if !e.CloseTorrent? {
      WantsStepSaturated(s, e);
    }
  }

  // ---------- over runs ----------

  /** In the run, no other torrent of the client gives a slot back. */
  ghost predicate NoSlotFreed(s: State, es: seq<Event>)
    requires Inv(s)
    decreases |es|
  {
    es == [] ||
    (StepKeeps(s, es[0]);
     match Step(s, es[0])
     case Disabled => NoSlotFreed(s, es[1..])
     case Next(s1) => !(es[0].OtherHashers? && es[0].others < s.others) && NoSlotFreed(s1, es[1..]))
  }

  lemma {:induction false} BusyRun(s: State, es: seq<Event>)
    requires Inv(s) && Saturated(s) && NoSlotFreed(s, es)
    ensures Run(s, es).Next? && Saturated(Run(s, es).state)
    decreases |es|
  {
    if es != [] {
      StepKeeps(s, es[0]);
      match Step(s, es[0])
      case Disabled => BusyRun(s, es[1..]);
      case Next(s1) =>
        HashersStayBusy(s, es[0]);
        BusyRun(s1, es[1..]);
    }
  }

  /** From the start of a torrent, no queued piece is ever left without a hasher it could have, unless a slot was freed elsewhere. */
  lemma HashersBusyInEveryRun(s0: State, es: seq<Event>)
    requires Init(s0) && Inv(s0) && NoSlotFreed(s0, es)
    ensures Run(s0, es).Next? && Saturated(Run(s0, es).state)
  {
    NoneFree(s0.pc, 0, s0.cfg.grid.pieces);
    BusyRun(s0, es);
  }

  /** Queued, and neither being hashed nor being marked. */
  ghost predicate Free(pc: Pieces, i: nat) {
    i in pc.queued && i !in pc.hashing && i !in pc.marking
  }

  /**
    A slot freed by another torrent starts nobody here. It leaves a piece waiting that could be hashed exactly when
    some piece is free and the client's limit alone held it up.
  */
  lemma FreedSlotWakesNobody(s: State, others: nat)
    requires Inv(s) && Saturated(s) && s.pc.active + others <= s.cfg.cpus
    ensures Step(s, OtherHashers(others)).Next?
    ensures !Saturated(Step(s, OtherHashers(others)).state) <==>
              && !s.closed && s.pc.active < s.cfg.maxHashers
              && s.pc.active + others < s.cfg.cpus == s.pc.active + s.others
              && exists i: nat :: Free(s.pc, i)
  {
    SomeFree(s.cfg.grid, s.pc);
    hide PieceToHash, Free;
  }

  lemma SomeFree(g: Grid, pc: Pieces)
    requires InTorrent(g, pc)
    ensures PieceToHash(pc, 0, g.pieces).Some? <==> exists i: nat :: Free(pc, i)
  {
    NoneFree(pc, 0, g.pieces);
    if PieceToHash(pc, 0, g.pieces).Some? {
      assert Free(pc, PieceToHash(pc, 0, g.pieces).value);
    }
    if exists i: nat :: Free(pc, i) {
      var i: nat :| Free(pc, i);
      assert i < g.pieces;
    }
  }

  /** Steps after which the torrent looks for pieces to hash: one was queued or one was done. */
  ghost predicate Wakes(e: Event) {
    e.Verify? || e.Marked? || e.Failed? || (e.WriteDone? && e.ok)
  }

  lemma WaitsOn(s: State, e: Event, i: nat)
    requires Inv(s) && Free(s.pc, i) && Step(s, e).Next? && !Wakes(e)
    ensures Free(Step(s, e).state.pc, i)
  {
    if e.OfPeer? || e.Receive? {
      LedgerStepLeavesQueue(s, e);
    } else if e.UpdateRequests? {
      AppliesToBook(s, e.p, e.pulls, e.maxReq);
    } else if e.StopDownload? {
      DisallowKeeps(s, e.visits);
    } else if e.WriteDone? {
      FailedWriteLeavesQueue(s, e);
    } else if AboutWants(e) {
      WantsStepShape(s, e);
    } else if AboutHashes(e) {
      HashWaits(s, e, i);
    }
  }

  lemma HashWaits(s: State, e: Event, i: nat)
    requires Inv(s) && Free(s.pc, i) && Step(s, e).Next? && (e.Passed? || e.Completion?)
    ensures Free(Step(s, e).state.pc, i)
  {
    assert s.cfg.geo.Valid();
    hide Inv, WantsStep, HashPassed, UpdateCompletion, Free;
    if e.Passed? {
      PassedLeavesFree(s, e.i, i);
    } else {
      CompletionLeavesFree(s, e.i, e.complete, e.okChanged, i);
    }
  }

  lemma PassedLeavesFree(s: State, j: nat, i: nat)
    requires Free(s.pc, i) && j in s.pc.hashing
    ensures Free(HashPassed(s, j).pc, i)
  {
    hide PieceToHash, Wanted;
  }

  lemma CompletionLeavesFree(s: State, j: nat, complete: bool, okChanged: bool, i: nat)
    requires Free(s.pc, i)
    ensures Free(UpdateCompletion(s, j, complete, okChanged).pc, i)
  {
    hide Wanted, PendAll, WithoutChunks;
  }

  /** A piece left waiting keeps waiting, through every run in which this torrent queues no piece and finishes none. */
  lemma {:induction false} WaitsUntilWoken(s: State, es: seq<Event>, i: nat)
    requires Inv(s) && Free(s.pc, i) && forall k :: 0 <= k < |es| ==> !Wakes(es[k])
    ensures Run(s, es).Next? && Free(Run(s, es).state.pc, i)
    decreases |es|
  {
    if es != [] {
      StepKeeps(s, es[0]);
      match Step(s, es[0])
      case Disabled => WaitsUntilWoken(s, es[1..], i);
      case Next(s1) =>
        WaitsOn(s, es[0], i);
        WaitsUntilWoken(s1, es[1..], i);
    }
  }

  /** Such a run exists: a piece is queued while other torrents use every slot, then they finish. */
  lemma APieceLeftWaiting() returns (s0: State, es: seq<Event>, s: State)
    ensures Init(s0) && Reaches(s0, es, s)
    ensures Inv(s) && Free(s.pc, 0) && !Saturated(s) && s.pc.active == 0 == s.others
  {
    var small := SmallTorrent();
    s0 := small.(others := small.cfg.cpus);
    InitIsGood(s0);
    QueuedWhileFull(s0);
    var s1 := Step(s0, Verify(0)).state;
    StepKeeps(s0, Verify(0));
    ThenFreed(s1);
    s := s1.(others := 0);
    assert StepsTo(s0, Verify(0), s1) && StepsTo(s1, OtherHashers(0), s);
    hide Inv, Init, Step, Saturated, Free, StepsTo, Reaches;
    ReachesItself(s);
    ReachesFrom(s1, OtherHashers(0), s, [], s);
    es := [Verify(0)] + ([OtherHashers(0)] + []);
    ReachesFrom(s0, Verify(0), s1, [OtherHashers(0)] + [], s);
  }

  lemma ThenFreed(s: State)
    requires Inv(s) && Free(s.pc, 0) && !s.closed && s.pc.active == 0 && s.cfg.maxHashers > 0 && s.cfg.cpus > 0
    ensures var s1 := s.(others := 0); Step(s, OtherHashers(0)) == Next(s1) && Inv(s1) && !Saturated(s1)
  {
    StepKeeps(s, OtherHashers(0));
    hide PieceToHash, Free;
    SomeFree(s.cfg.grid, s.pc);
  }

  lemma QueuedWhileFull(s: State)
    requires Init(s) && s.others == s.cfg.cpus && s.cfg.grid.pieces > 0
    ensures Step(s, Verify(0)).Next?
    ensures var s1 := Step(s, Verify(0)).state;
            s1 == s.(pc := s.pc.(queued := {0}), wants := s1.wants) && Free(s1.pc, 0)
  {
  }
}

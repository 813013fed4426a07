/** No step of any run reaches a panic that the model has, and every state of every run satisfies the invariant. */
module SchedulerSafety {
  import opened Outcomes
  import opened Ledger
  import opened Grids
  import opened Scheduler
  import opened SchedulerInvariants
  import opened SchedulerPieces
  import F = Files
  import G = Geometry

  // ---------- chunks ----------

  lemma WriterAdded(g: Grid, writing: map<PeerId, Req>, p: PeerId, r: Req, i: nat)
    requires p !in writing
    ensures |Writers(g, writing[p := r], i)| == |Writers(g, writing, i)| + if g.PieceOf(r) == i then 1 else 0
  {
    var after := Writers(g, writing[p := r], i);
    assert after == Writers(g, writing, i) + if g.PieceOf(r) == i then {p} else {};
  }

  lemma WriterGone(g: Grid, writing: map<PeerId, Req>, p: PeerId, i: nat)
    requires p in writing
    ensures |Writers(g, writing - {p}, i)| == |Writers(g, writing, i)| - if g.PieceOf(writing[p]) == i then 1 else 0
  {
    var before := Writers(g, writing, i);
    assert Writers(g, writing - {p}, i) == before - if g.PieceOf(writing[p]) == i then {p} else {};
  }

  /** The book may be replaced by any sound one that requests no more chunks than before. */
  lemma BookShrinks(s: State, b: Book)
    requires Inv(s) && Sound(b) && forall r :: r in b.owner ==> r in s.book.owner
    ensures Inv(s.(book := b))
  {
    var s1 := s.(book := b);
    CacheElsewhere(s, s1, 0);
    forall j: nat | !s.closed ensures !Stuck(s1.cfg.grid, s1.pc, j) {
      assert !Stuck(s.cfg.grid, s.pc, j);
    }
  }

  /** What starting a write does to the state, with the rest of the ledger as it was. */
  lemma BeginWriteEffect(s: State, p: PeerId, r: Req, now: int)
    requires Sound(s.book) && p in s.book.peers && (r in s.book.owner ==> s.book.owner[r] != p)
    ensures BeginWrite(s, p, r, now).Done?
    ensures var (s1, i) := (BeginWrite(s, p, r, now).value, s.cfg.grid.PieceOf(r));
            && Sound(s1.book) && OwnersKept(s.book, s1.book) && r !in s1.book.owner
            && s1 == s.(book := s1.book,
                        pc := s.pc.(pendingWrites := s.pc.pendingWrites[i := Pending(s.pc, i) + 1],
                                    dirty := s.pc.dirty + {r}, writing := s.pc.writing[p := r]))
  {
    UsefulKeeps(s.book, p, now);
    hide Sound, CancelRequest;
    CancelRequestSafe(With(s.book, p, s.book.peers[p].(lastUseful := now)), r);
  }

  lemma BeginWriteKeeps(s: State, p: PeerId, r: Req, now: int)
    requires Inv(s) && p in s.book.peers && p !in s.pc.writing
    requires s.cfg.grid.IsChunk(r) && !HaveChunk(s, r)
    requires r in s.book.owner ==> s.book.owner[r] != p
    ensures BeginWrite(s, p, r, now).Done? && Inv(BeginWrite(s, p, r, now).value)
  {
    hide Sound, BeginWrite;
    var i := s.cfg.grid.PieceOf(r);
    BeginWriteEffect(s, p, r, now);
    var s1 := BeginWrite(s, p, r, now).value;
    WriteStartCounted(s, s1, p, r);
    CacheElsewhere(s, s1, i);
    WriteStartStuck(s, s1, p, r);
    hide WritesCounted, NoneStuck, CacheExactBut;
  }

  lemma WriteStartCounted(s: State, s1: State, p: PeerId, r: Req)
    requires WritesCounted(s.cfg.grid, s.pc) && p !in s.pc.writing && s1.cfg == s.cfg
    requires var i := s.cfg.grid.PieceOf(r);
             s1.pc == s.pc.(pendingWrites := s.pc.pendingWrites[i := Pending(s.pc, i) + 1],
                            dirty := s.pc.dirty + {r}, writing := s.pc.writing[p := r])
    ensures WritesCounted(s1.cfg.grid, s1.pc)
  {
    forall j: nat ensures Pending(s1.pc, j) == |Writers(s.cfg.grid, s1.pc.writing, j)| {
      WriterAdded(s.cfg.grid, s.pc.writing, p, r, j);
    }
  }

  lemma WriteStartStuck(s: State, s1: State, p: PeerId, r: Req)
    requires NoneStuck(s) && s1.cfg == s.cfg && s1.closed == s.closed
    requires var i := s.cfg.grid.PieceOf(r);
             s1.pc == s.pc.(pendingWrites := s.pc.pendingWrites[i := Pending(s.pc, i) + 1],
                            dirty := s.pc.dirty + {r}, writing := s.pc.writing[p := r])
    ensures NoneStuck(s1)
  {
    var i := s.cfg.grid.PieceOf(r);
    forall j: nat | !s.closed ensures !Stuck(s1.cfg.grid, s1.pc, j) {
      if j != i {
        StuckElsewhere(s.cfg.grid, s.pc, s1.pc, i, j);
      }
    }
  }

  lemma ReceiveChunkKeeps(s: State, p: PeerId, index: nat, begin: nat, now: int)
    requires Inv(s) && p in s.book.peers && p !in s.pc.writing
    ensures ReceiveChunk(s, p, index, begin, now).Done? && Inv(ReceiveChunk(s, p, index, begin, now).value)
  {
    if index < s.cfg.geo.pieces && begin < s.cfg.geo.PieceLength(index) {
      var r := s.cfg.geo.FromRequest(G.Request(index, begin, 0));
      ReceivedChunk(s.cfg.geo, index, begin);
      hide TakeExpected, Inv;
      if r in s.book.peers[p].expected {
        TakeExpectedKeeps(s, p, r, now);
      }
    }
  }

  lemma TakeExpectedKeeps(s: State, p: PeerId, r: Req, now: int)
    requires Inv(s) && p in s.book.peers && p !in s.pc.writing
    requires s.cfg.grid.IsChunk(r) && r in s.book.peers[p].expected
    ensures TakeExpected(s, p, r, now).Done? && Inv(TakeExpected(s, p, r, now).value)
  {
    TakeChunkKeeps(s, p, r);
    hide Inv, TakeChunk, BeginWrite;
    if !HaveChunk(s, r) {
      BeginWriteKeeps(s.(book := TakeChunk(s.book, p, r).value.0), p, r, now);
    }
  }

  lemma TakeChunkKeeps(s: State, p: PeerId, r: Req)
    requires Inv(s) && p in s.book.peers && r in s.book.peers[p].expected
    ensures TakeChunk(s.book, p, r).Done?
    ensures var b := TakeChunk(s.book, p, r).value.0;
            Inv(s.(book := b)) && p in b.peers && (r in b.owner ==> b.owner[r] != p)
  {
    TakeChunkSafe(s.book, p, r);
    TakeChunkEffect(s.book, p, r);
    hide Sound, TakeChunk;
    BookShrinks(s, TakeChunk(s.book, p, r).value.0);
  }

  lemma FlagKeeps(s: State, disallowed: bool)
    requires Inv(s)
    ensures Inv(s.(disallowed := disallowed))
  {
    CacheElsewhere(s, s.(disallowed := disallowed), 0);
  }

  /** Stopping all downloading panics in no order, and leaves nothing outstanding. */
  lemma DisallowKeeps(s: State, visits: Visits)
    requires Inv(s) && VisitsActive(s.book, visits)
    ensures DisallowDownload(s, visits) == Done(s.(book := AllCancelled(s.book), disallowed := true))
    ensures Inv(DisallowDownload(s, visits).value)
  {
    CancelEverywhereSafe(s.book, visits);
    BookShrinks(s, AllCancelled(s.book));
    FlagKeeps(s.(book := AllCancelled(s.book)), true);
  }

  /** A failed write makes its chunk wanted again and, unless the user handles it, stops all downloading. */
  lemma EndWriteKeeps(s: State, p: PeerId, ok: bool, handled: bool, visits: Visits)
    requires Inv(s) && p in s.pc.writing && (!ok && !handled ==> VisitsActive(s.book, visits))
    ensures !ok && !handled ==> VisitsPeers(s.book, visits)
    ensures var o := EndWrite(s, p, ok, handled, visits);
            o.Done? && Inv(o.value) && (!ok && !handled ==> o.value.disallowed && o.value.book == AllCancelled(s.book))
  {
    hide DisallowDownload, VisitsActive, Inv, EndWrite, AllCancelled;
    VisitedExist(s.book, visits);
    WriteEndKeeps(s, p, ok);
    EndWriteIs(s, p, ok, handled, visits);
    if !ok && !handled {
      DisallowKeeps(EndWrite(s, p, ok, true, []).value, visits);
    }
  }

  lemma VisitedExist(b: Book, visits: Visits)
    ensures VisitsActive(b, visits) ==> VisitsPeers(b, visits)
  {
  }

  /** The end of a write with the error handler is the end with a handler of the user's, and then the stop. */
  lemma EndWriteIs(s: State, p: PeerId, ok: bool, handled: bool, visits: Visits)
    requires p in s.pc.writing && (!ok && !handled ==> VisitsPeers(s.book, visits)) && EndWrite(s, p, ok, true, []).Done?
    requires !ok ==> EndWrite(s, p, ok, true, []).value.book == s.book
    ensures EndWrite(s, p, ok, handled, visits) ==
            if !ok && !handled then DisallowDownload(EndWrite(s, p, ok, true, []).value, visits) else EndWrite(s, p, ok, true, [])
  {
    hide DisallowDownload, QueueCheck;
  }

  lemma WriteEndKeeps(s: State, p: PeerId, ok: bool)
    requires Inv(s) && p in s.pc.writing
    ensures var o := EndWrite(s, p, ok, true, []);
            o.Done? && Inv(o.value) && (!ok ==> o.value == s.(pc := o.value.pc))
  {
    var g, r := s.cfg.grid, s.pc.writing[p];
    var i := g.PieceOf(r);
    forall j: nat ensures |Writers(g, s.pc.writing - {p}, j)| == Pending(s.pc, j) - if j == i then 1 else 0 {
      WriterGone(g, s.pc.writing, p, j);
    }
    var pc1 := s.pc.(pendingWrites := s.pc.pendingWrites[i := Pending(s.pc, i) - 1], writing := s.pc.writing - {p});
    var s1 := s.(pc := if ok then pc1 else pc1.(dirty := pc1.dirty - {r}));
    CacheElsewhere(s, s1, i);
    forall j: nat | !s.closed && j != i ensures !Stuck(g, s1.pc, j) {
      StuckElsewhere(g, s.pc, s1.pc, i, j);
    }
    if !ok {
      CleanChunk(g, s1.pc.dirty, r);
    } else if g.AllDirty(pc1.dirty, i) && Pending(pc1, i) == 0 {
      QueueCheckKeeps(s1, i);
    }
  }

  // ---------- requesting ----------

  /** The state of affairs in which a request may be made and, once made, breaks nothing. */
  ghost predicate Grantable(s: State, p: PeerId, r: Req) {
    && p in s.book.peers && MayRequest(s, p, r)
    && r !in s.pc.dirty && s.cfg.grid.PieceOf(r) !in s.pc.complete
  }

  /** What is desired from requestable pieces is grantable: the cache of wanted pieces is what makes it so. */
  lemma DesiredIsGrantable(s: State, p: PeerId, visited: set<nat>, r: Req)
    requires Inv(s) && p in s.book.peers && !s.book.peers[p].closed
    requires visited <= s.wants.pending && Desired(s, p, visited, r)
    ensures Grantable(s, p, r)
    ensures var i := s.cfg.grid.PieceOf(r); Wanted(s, i) && i !in s.pc.marking
  {
    assert PeerOk(s.book.peers[p]);
    assert s.cfg.grid.PieceOf(r) in s.wants.pending;
  }

  /** The parts of a peer that a round of another peer's or its own requesting leaves alone. */
  ghost predicate SameFooting(c: Peer, c1: Peer) {
    c1 == c.(requests := c1.requests, expected := c1.expected) && c.requests <= c1.requests
  }

  lemma StillGrantable(s: State, p: PeerId, r: Req)
    requires Sound(s.book) && Grantable(s, p, r) && r in s.book.owner && s.book.owner[r] != p
    ensures CancelRequest(s.book, r).Done?
    ensures var s1 := s.(book := CancelRequest(s.book, r).value);
            Grantable(s1, p, r) && s1.book.peers[p] == s.book.peers[p]
  {
    CancelRequestEffect(s.book, r, p);
  }

  /** Taking a request away from its holder leaves the taker's own entry, and its right to ask, as they were. */
  lemma TakenAway(s: State, p: PeerId, r: Req)
    requires Core(s) && Grantable(s, p, r) && r in s.book.owner && s.book.owner[r] != p
    ensures CancelRequest(s.book, r).Done?
    ensures var s1 := s.(book := CancelRequest(s.book, r).value);
            && Core(s1) && Grantable(s1, p, r) && r !in s1.book.owner
            && s1.book.peers[p] == s.book.peers[p]
  {
    CancelRequestSafe(s.book, r);
  }

  /** Asking for a chunk nobody else holds. */
  lemma MakeRequestSafe(s: State, p: PeerId, r: Req, limit: int)
    requires Core(s) && Grantable(s, p, r) && (r in s.book.owner ==> s.book.owner[r] == p)
    ensures MakeRequest(s, p, r, limit).Done?
    ensures var b := MakeRequest(s, p, r, limit).value.0;
            Core(s.(book := b)) && SameFooting(s.book.peers[p], b.peers[p])
  {
    if r !in s.book.peers[p].requests && |s.book.peers[p].requests| < limit {
      assert r !in s.book.owner;
      AddRequestSafe(s.book, p, r);
    }
  }

  /** A steal is a cancel and a request. */
  lemma Steals(s: State, p: PeerId, pull: Pull)
    requires p in s.book.peers && pull.req in s.book.owner && s.book.owner[pull.req] != p
    requires MaySteal(s.book, p, s.book.owner[pull.req]) && CancelRequest(s.book, pull.req).Done?
    requires MakeRequest(s.(book := CancelRequest(s.book, pull.req).value), p, pull.req, pull.limit).Done?
    ensures var (b, refused) := MakeRequest(s.(book := CancelRequest(s.book, pull.req).value), p, pull.req, pull.limit).value;
            TryPull(s, p, pull) == Done((b, !refused && pull.more))
  {
    hide CancelRequest, MakeRequest, MaySteal;
  }

  /** A chunk nobody else holds is only requested. */
  lemma AsksFreely(s: State, p: PeerId, pull: Pull)
    requires p in s.book.peers && (pull.req in s.book.owner ==> s.book.owner[pull.req] == p)
    requires MakeRequest(s, p, pull.req, pull.limit).Done?
    ensures var (b, refused) := MakeRequest(s, p, pull.req, pull.limit).value;
            TryPull(s, p, pull) == Done((b, !refused && pull.more))
  {
    hide CancelRequest, MakeRequest, MaySteal;
  }

  /** A chunk that may not be taken stays where it is. */
  lemma LeavesIt(s: State, p: PeerId, pull: Pull)
    requires p in s.book.peers && pull.req in s.book.owner && s.book.owner[pull.req] != p
    requires !MaySteal(s.book, p, s.book.owner[pull.req])
    ensures TryPull(s, p, pull) == Done((s.book, true))
  {
    hide CancelRequest, MakeRequest, MaySteal;
  }

  lemma TryPullSafe(s: State, p: PeerId, pull: Pull)
    requires Core(s) && Grantable(s, p, pull.req)
    ensures TryPull(s, p, pull).Done?
    ensures var b := TryPull(s, p, pull).value.0;
            Core(s.(book := b)) && SameFooting(s.book.peers[p], b.peers[p])
  {
    var r := pull.req;
    if r !in s.book.owner || s.book.owner[r] == p {
      MakeRequestSafe(s, p, r, pull.limit);
    } else if MaySteal(s.book, p, s.book.owner[r]) {
      TakenAway(s, p, r);
      var s1 := s.(book := CancelRequest(s.book, r).value);
      MakeRequestSafe(s1, p, r, pull.limit);
      assert TryPull(s, p, pull).value.0 == MakeRequest(s1, p, r, pull.limit).value.0;
    }
  }

  lemma {:induction false} ApplyPullsKeeps(s: State, p: PeerId, pulls: seq<Pull>, maxReq: int)
    requires Core(s) && p in s.book.peers
    requires forall k :: 0 <= k < |pulls| ==> Grantable(s, p, pulls[k].req)
    ensures ApplyPulls(s, p, pulls, maxReq).Done?
    ensures var s1 := ApplyPulls(s, p, pulls, maxReq).value; Core(s1) && s1 == s.(book := s1.book)
    decreases |pulls|
  {
    if pulls != [] && Outstanding(s.book, p) < maxReq {
      TryPullSafe(s, p, pulls[0]);
      var (b, go) := TryPull(s, p, pulls[0]).value;
      if go {
        var s1 := s.(book := b);
        forall k | 0 <= k < |pulls[1..]| ensures Grantable(s1, p, pulls[1..][k].req) {
          assert Grantable(s, p, pulls[k + 1].req);
        }
        ApplyPullsKeeps(s1, p, pulls[1..], maxReq);
      }
    }
  }

  lemma {:induction false} AppliesToBook(s: State, p: PeerId, pulls: seq<Pull>, maxReq: int)
    requires p in s.book.peers
    ensures var o := ApplyPulls(s, p, pulls, maxReq); o.Done? ==> o.value == s.(book := o.value.book)
    decreases |pulls|
  {
    if pulls != [] && TryPull(s, p, pulls[0]).Done? {
      AppliesToBook(s.(book := TryPull(s, p, pulls[0]).value.0), p, pulls[1..], maxReq);
    }
  }

  lemma BookChanges(s: State, b: Book)
    requires Inv(s) && Core(s.(book := b))
    ensures Inv(s.(book := b))
  {
    var s1 := s.(book := b);
    CacheElsewhere(s, s1, 0);
    forall j: nat | !s.closed ensures !Stuck(s1.cfg.grid, s1.pc, j) {
      assert !Stuck(s.cfg.grid, s.pc, j);
    }
  }

  // ---------- every step, every run ----------

  lemma SetPeerKeeps(s: State, b: Book, p: PeerId, c: Peer)
    requires Inv(s) && Sound(b) && p in b.peers && PeerOk(c) && c.requests == b.peers[p].requests
    requires forall r :: r in b.owner ==> r in s.book.owner
    ensures Inv(SetPeer(s.(book := b), p, c))
  {
    ReplacePeer(b, p, c);
    BookShrinks(s, With(b, p, c));
  }

  lemma DropKeeps(s: State, p: PeerId)
    requires Inv(s) && p in s.book.peers
    ensures PeerStep(s, p, Drops).Next? && Inv(PeerStep(s, p, Drops).state)
  {
    assert PeerOk(s.book.peers[p]);
    WithoutRequestsSafe(s.book, p);
    SetPeerKeeps(s, WithoutRequests(s.book, p), p, s.book.peers[p].(requests := {}, closed := true, active := false));
  }

  lemma ChokeKeeps(s: State, p: PeerId)
    requires Inv(s) && Listening(s, p)
    ensures PeerStep(s, p, Chokes).Next? && Inv(PeerStep(s, p, Chokes).state)
  {
    WithoutRequestsSafe(s.book, p);
    var b := if s.book.peers[p].fast then s.book else WithoutRequests(s.book, p);
    assert PeerOk(b.peers[p]);
    SetPeerKeeps(s, b, p, b.peers[p].(choking := true));
  }

  lemma PeerStepKeeps(s: State, p: PeerId, e: PeerEvent)
    requires Inv(s)
    ensures !PeerStep(s, p, e).Crash?
    ensures PeerStep(s, p, e).Next? ==> Inv(PeerStep(s, p, e).state)
  {
    if PeerStep(s, p, e).Disabled? {
      return;
    }
    match e
    case Joins(_, _, _) => BookShrinks(s, PeerStep(s, p, e).state.book);
    case Closes =>
      assert PeerOk(s.book.peers[p]);
      SetPeerKeeps(s, s.book, p, s.book.peers[p].(closed := true));
    case Drops => DropKeeps(s, p);
    case Has(has) =>
      assert PeerOk(s.book.peers[p]);
      SetPeerKeeps(s, s.book, p, s.book.peers[p].(has := has));
    case Chokes => ChokeKeeps(s, p);
    case Unchokes =>
      assert PeerOk(s.book.peers[p]);
      SetPeerKeeps(s, s.book, p, s.book.peers[p].(choking := false));
    case Rejects(r) =>
      RemoteRejectedSafe(s.book, p, r);
      BookShrinks(s, RemoteRejected(s.book, p, r).value.0);
  }

  lemma UpdateRequestsKeeps(s: State, e: Event)
    requires Inv(s) && e.UpdateRequests?
    ensures !Step(s, e).Crash?
    ensures Step(s, e).Next? ==> Inv(Step(s, e).state)
  {
    if Step(s, e).Disabled? || !e.interestSent {
      return;
    }
    forall k | 0 <= k < |e.pulls| ensures Grantable(s, e.p, e.pulls[k].req) {
      DesiredIsGrantable(s, e.p, e.visited, e.pulls[k].req);
    }
    ApplyPullsKeeps(s, e.p, e.pulls, e.maxReq);
    BookChanges(s, Step(s, e).state.book);
  }

  lemma CloseTorrentKeeps(s: State)
    requires Inv(s)
    ensures Inv(Step(s, CloseTorrent).state)
  {
    hide Sound, Wanted;
    AllClosedSafe(s.book);
    CacheElsewhere(s, Step(s, CloseTorrent).state, 0);
  }

  lemma AddReaderKeeps(s: State, id: nat)
    requires Inv(s) && id !in s.wants.readers
    ensures Inv(Step(s, AddReader(id)).state)
  {
    var n, before, after := s.cfg.grid.pieces, s.wants.readers, s.wants.readers[id := (0, 0)];
    forall j: nat ensures ReadNow(after, j) == ReadNow(before, j) && ReadAhead(after, j) == ReadAhead(before, j) {
      if ReadNow(before, j) {
        var k :| k in before && before[k].0 == j < before[k].1;
        assert after[k].0 == j < after[k].1;
      }
      if ReadAhead(before, j) {
        var k :| k in before && before[k].0 < j < before[k].1;
        assert after[k].0 < j < after[k].1;
      }
    }
    var s1 := Step(s, AddReader(id)).state;
    assert NowPieces(n, after) == NowPieces(n, before) && AheadPieces(n, after) == AheadPieces(n, before);
    forall j: nat ensures Wanted(s1, j) == Wanted(s, j) {
      assert ListedPrios(s1.cfg, s1.wants, j) == ListedPrios(s.cfg, s.wants, j);
    }
    OnlyWantsChanged(s, s1.wants);
  }

  lemma OtherHashersKeeps(s: State, others: nat)
    requires Inv(s) && s.pc.active + others <= s.cfg.cpus
    ensures Inv(s.(others := others))
  {
    CacheElsewhere(s, s.(others := others), 0);
  }

  lemma HashStepKeeps(s: State, e: Event)
    requires Inv(s) && AboutHashes(e) && Step(s, e).Next?
    ensures Inv(Step(s, e).state)
  {
    assert s.cfg.geo.Valid();
    hide Inv, QueueCheck, HashPassed, MarkDone, HashFailed, UpdateCompletion, WantsStep;
    match e
    case Verify(i) => QueueCheckKeeps(s, i);
    case Passed(i) => HashPassedKeeps(s, i);
    case Marked(i, complete, okChanged) => MarkDoneKeeps(s, i, complete, okChanged);
    case Failed(i, complete, okChanged) => HashFailedKeeps(s, i, complete, okChanged);
    case Completion(i, complete, okChanged) => UpdateCompletionKeeps(s, i, complete, okChanged);
  }

  lemma WantsStepKeeps(s: State, e: Event)
    requires Inv(s) && AboutWants(e) && Step(s, e).Next?
    ensures Inv(Step(s, e).state)
  {
    assert s.cfg.Valid() && s.cfg.geo.Valid() && WellSized(s.cfg, s.wants);
    hide Inv, SetPiecePriority, SetFilePriority, MapPiecePriorities, MoveWindow, DeleteReader, HashStep;
    match e
    case PiecePriority(i, prio) => SetPiecePriorityKeeps(s, i, prio);
    case FilePriority(k, prio) => SetFilePriorityKeeps(s, k, prio);
    case Download(begin, end) => MapPiecePrioritiesKeeps(s, begin, end, AtLeastNormal);
    case CancelRange(begin, end) => MapPiecePrioritiesKeeps(s, begin, end, NotWanted);
    case AddReader(id) => AddReaderKeeps(s, id);
    case ReaderMoved(id, off, size) =>
      F.WindowIsExact(s.cfg.geo, off, size, 0);
      MoveWindowKeeps(s, id, F.ByteRegionPieces(s.cfg.geo, off, size));
    case RemoveReader(id) => DeleteReaderKeeps(s, id);
  }

  /** Steps about what is wanted change nothing else. */
  lemma WantsStepShape(s: State, e: Event)
    requires Inv(s) && AboutWants(e) && Step(s, e).Next?
    ensures Step(s, e).state == s.(wants := Step(s, e).state.wants)
  {
    assert s.cfg.geo.Valid() && WellSized(s.cfg, s.wants);
    hide Inv, Wanted, NowPieces, AheadPieces, F.ByteRegionPieces, F.BeginPiece, F.EndPiece, HashStep;
  }

  /** The main theorem for one step: from a good state no event panics, and each leads to a good state. */
  lemma StepKeeps(s: State, e: Event)
    requires Inv(s)
    ensures !Step(s, e).Crash?
    ensures Step(s, e).Next? ==> Inv(Step(s, e).state)
  {
    if Step(s, e).Disabled? {
    } else if e.OfPeer? {
      PeerStepKeeps(s, e.p, e.what);
    } else if e.Receive? {
      ReceiveChunkKeeps(s, e.p, e.index, e.begin, e.now);
    } else if e.WriteDone? {
      EndWriteKeeps(s, e.p, e.ok, e.handled, e.visits);
    } else if e.UpdateRequests? {
      UpdateRequestsKeeps(s, e);
    } else if AboutHashes(e) {
      HashStepKeeps(s, e);
    } else if AboutWants(e) {
      WantsStepKeeps(s, e);
    } else if e.OtherHashers? {
      OtherHashersKeeps(s, e.others);
    } else if e.StopDownload? {
      DisallowKeeps(s, e.visits);
    } else if e.AllowDownload? || e.MergeSpec? {
      FlagKeeps(s, Step(s, e).state.disallowed);
    } else {
      CloseTorrentKeeps(s);
    }
  }

  /** What the invariant says of the sizes, the ledger and the readers. */
  lemma Basics(s: State)
    requires Inv(s)
    ensures s.cfg.Valid() && s.cfg.geo.Valid() && WellSized(s.cfg, s.wants) && Sound(s.book)
    ensures forall k :: k in s.wants.readers ==> s.wants.readers[k].1 <= s.cfg.grid.pieces
  {
  }

  /** A torrent whose info has just become known. */
  ghost predicate Init(s: State) {
    && s.cfg.Valid()
    && s.book == Book(map[], map[])
    && s.pc == Pieces({}, map[], map[], {}, {}, {}, {}, 0)
    && WellSized(s.cfg, s.wants)
    && (forall i :: 0 <= i < |s.wants.piecePrio| ==> s.wants.piecePrio[i] == PRIORITY_NONE)
    && (forall k :: 0 <= k < |s.wants.filePrio| ==> s.wants.filePrio[k] == PRIORITY_NONE)
    && s.wants.readers == map[] && s.wants.now == {} && s.wants.readahead == {} && s.wants.pending == {}
    && s.others <= s.cfg.cpus && !s.closed
  }

  lemma SmallGeo()
    ensures var geo := G.Geo(5, 2, 1, 3); geo.Valid() && F.Accepted(geo, [3, 2])
  {
    assert F.Off([3, 2], 0) == 0 && F.Off([3, 2], 1) == 3 && F.Off([3, 2], 2) == 5;
  }

  lemma ConfigOf(geo: G.Geo, lengths: seq<nat>, maxHashers: nat, cpus: nat) returns (cfg: Config)
    requires geo.Valid() && F.Accepted(geo, lengths)
    ensures cfg.Valid() && cfg.grid.pieces == geo.pieces && cfg.lengths == lengths && cfg.maxHashers == maxHashers && cfg.cpus == cpus
  {
    GridOfValid(geo);
    cfg := Config(geo, lengths, GridOf(geo), maxHashers, cpus);
  }

  /** Such states exist: five bytes in two files, cut into three pieces of up to two one-byte chunks. */
  lemma SmallTorrent() returns (s: State)
    ensures Init(s) && s.cfg.grid.pieces == 3 && |s.cfg.lengths| == 2 && s.cfg.maxHashers == 2 && s.cfg.cpus == 4
  {
    SmallGeo();
    var cfg := ConfigOf(G.Geo(5, 2, 1, 3), [3, 2], 2, 4);
    var none := PRIORITY_NONE;
    s := State(cfg, Book(map[], map[]), Pieces({}, map[], map[], {}, {}, {}, {}, 0),
               Wants([none, none], [none, none, none], map[], {}, {}, {}), 0, false, false);
  }

  lemma {:induction false} AllNone(prios: seq<nat>)
    requires forall k :: 0 <= k < |prios| ==> prios[k] == PRIORITY_NONE
    ensures MaxOf(prios) == PRIORITY_NONE
  {
    if prios != [] {
      AllNone(prios[1..]);
    }
  }

  lemma InitIsGood(s: State)
    requires Init(s)
    ensures Inv(s)
  {
    forall j: nat ensures !Wanted(s, j) {
      AllNone(ListedPrios(s.cfg, s.wants, j));
    }
    forall j: nat ensures !Stuck(s.cfg.grid, s.pc, j) {
      if j < s.cfg.grid.pieces {
        FirstChunk(s.cfg.grid, j);
        CleanChunk(s.cfg.grid, {}, s.cfg.grid.First(j));
      }
    }
    forall i: nat ensures Pending(s.pc, i) == |Writers(s.cfg.grid, s.pc.writing, i)| {
      assert Writers(s.cfg.grid, s.pc.writing, i) == {};
    }
  }

  /** Running events in order; an event that is not enabled is skipped, a panic ends the run. */
  ghost function Run(s: State, es: seq<Event>): StepResult
    requires Inv(s)
    decreases |es|
  {
    if es == [] then Next(s)
    else
      StepKeeps(s, es[0]);
      match Step(s, es[0])
      case Disabled => Run(s, es[1..])
      case Crash => Crash
      case Next(s1) => Run(s1, es[1..])
  }

  /**
    Over every run, whatever peers, storage, readers and timing do: none of the panics of the ledger, of requesting, of
    pending writes and of cancelling is reached, and the invariant holds at the end.
  */
  lemma {:induction false} RunIsSafe(s: State, es: seq<Event>)
    requires Inv(s)
    ensures Run(s, es).Next? && Inv(Run(s, es).state)
    decreases |es|
  {
    if es != [] {
      StepKeeps(s, es[0]);
      match Step(s, es[0])
      case Disabled => RunIsSafe(s, es[1..]);
      case Next(s1) => RunIsSafe(s1, es[1..]);
    }
  }

  /** One step between good states. */
  ghost predicate StepsTo(s: State, e: Event, s1: State) {
    Inv(s) && Inv(s1) && Step(s, e) == Next(s1)
  }

  ghost predicate Reaches(s: State, es: seq<Event>, end: State) {
    Inv(s) && Run(s, es) == Next(end)
  }

  lemma ReachesItself(s: State)
    requires Inv(s)
    ensures Reaches(s, [], s)
  {
  }

  lemma ReachesFrom(s: State, e: Event, s1: State, es: seq<Event>, end: State)
    requires StepsTo(s, e, s1) && Reaches(s1, es, end)
    ensures Reaches(s, [e] + es, end)
  {
    assert ([e] + es)[1..] == es;
  }
}

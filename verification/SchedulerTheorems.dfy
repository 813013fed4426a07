/** What the invariant means for the torrent: the promises a reader of the code would ask for, over all runs. */
module SchedulerTheorems {
  import opened Outcomes
  import opened Ledger
  import opened Grids
  import opened Scheduler
  import opened SchedulerInvariants
  import opened SchedulerPieces
  import opened SchedulerSafety
  import F = Files
  import G = Geometry

  // ---------- over every run from the moment the info is known ----------

  /** Ownership and the peers' sets mirror each other, and each peer's counters cover its outstanding chunks. */
  lemma LedgersAgree(s0: State, es: seq<Event>, p: PeerId, r: Req)
    requires Init(s0)
    ensures Inv(s0) && Run(s0, es).Next?
    ensures var b := Run(s0, es).state.book;
            p in b.peers ==>
              && (r in b.peers[p].requests <==> r in b.owner && b.owner[r] == p)
              && !(r in b.peers[p].requests && r in b.peers[p].cancelled)
              && (if r in b.peers[p].requests then 1 else 0) + (if r in b.peers[p].cancelled then 1 else 0)
                 <= (if r in b.peers[p].expected then b.peers[p].expected[r] else 0)
  {
    InitIsGood(s0);
    RunIsSafe(s0, es);
    GoodLedger(Run(s0, es).state, p, r);
    hide *;
  }

  lemma GoodLedger(s: State, p: PeerId, r: Req)
    requires Inv(s)
    ensures var b := s.book;
            p in b.peers ==>
              && (r in b.peers[p].requests <==> r in b.owner && b.owner[r] == p)
              && !(r in b.peers[p].requests && r in b.peers[p].cancelled)
              && (if r in b.peers[p].requests then 1 else 0) + (if r in b.peers[p].cancelled then 1 else 0)
                 <= (if r in b.peers[p].expected then b.peers[p].expected[r] else 0)
  {
    if p in s.book.peers {
      assert Sound(s.book);
      hide Inv;
      RecordsMirror(s.book, p, r);
      ExpectedCoversOutstanding(s.book, p, r);
    }
  }

  /** The cache of pending pieces is exactly the set of pieces whose recomputed priority is not None. */
  lemma PendingCacheIsExact(s0: State, es: seq<Event>)
    requires Init(s0)
    ensures Inv(s0) && Run(s0, es).Next?
    ensures var s := Run(s0, es).state;
            forall i: nat :: i in s.wants.pending <==>
              i < |s.wants.piecePrio| && !Busy(s.pc, i) && PurePriority(s.cfg, s.wants, i) != PRIORITY_NONE
  {
    InitIsGood(s0);
    RunIsSafe(s0, es);
    var s := Run(s0, es).state;
    forall i: nat ensures i in s.wants.pending <==> Wanted(s, i) {
    }
  }

  lemma {:induction false} MaxOfBound(prios: seq<nat>, m: nat)
    ensures MaxOf(prios) <= m <==> forall k :: 0 <= k < |prios| ==> prios[k] <= m
  {
    if prios != [] {
      MaxOfBound(prios[1..], m);
      assert forall k :: 0 < k < |prios| ==> prios[k] == prios[1..][k - 1];
    }
  }

  /** A piece's own priority is the largest of all that apply: its files', the readers' and its own setting. */
  lemma PriorityIsLargest(cfg: Config, w: Wants, i: nat, m: nat)
    requires cfg.Valid() && WellSized(cfg, w) && i < cfg.grid.pieces
    ensures PurePriority(cfg, w, i) <= m <==>
              && (forall k: nat :: k < |cfg.lengths| && F.Lists(cfg.geo, cfg.lengths, i, k) ==> w.filePrio[k] <= m)
              && (i in w.now ==> 5 <= m) && (i in w.readahead ==> 3 <= m)
              && w.piecePrio[i] <= m
  {
    ListedBound(cfg, w, i, m);
    hide F.Lists, ListedPrios, Config.Valid, MaxOf;
  }

  lemma ListedBound(cfg: Config, w: Wants, i: nat, m: nat)
    requires cfg.Valid() && WellSized(cfg, w) && i < cfg.grid.pieces
    ensures MaxOf(ListedPrios(cfg, w, i)) <= m <==>
              forall k: nat :: k < |cfg.lengths| && F.Lists(cfg.geo, cfg.lengths, i, k) ==> w.filePrio[k] <= m
  {
    F.SliceIs(cfg.geo, cfg.lengths, i);
    hide F.PieceFiles, Config.Valid, MaxOf, F.Off;
    var (first, end) := F.PieceFiles(cfg.geo, cfg.lengths, i);
    SliceBound(w.filePrio, first, end, m);
  }

  lemma SliceBound(prios: seq<nat>, first: nat, end: nat, m: nat)
    requires first <= end <= |prios|
    ensures MaxOf(prios[first..end]) <= m <==> forall k :: first <= k < end ==> prios[k] <= m
  {
    var part := prios[first..end];
    MaxOfBound(part, m);
    assert forall k :: first <= k < end ==> prios[k] == part[k - first];
  }

  /**
    What is pending, in the user's terms: pieces not complete nor on their way to be checked, that
    a prioritised file lists, a reader's window holds, or a priority of their own asks for.
  */
  lemma PendingForAReason(s0: State, es: seq<Event>, i: nat)
    requires Init(s0)
    ensures Inv(s0) && Run(s0, es).Next?
    ensures var s := Run(s0, es).state;
            i in s.wants.pending <==>
              && i < s.cfg.grid.pieces && i !in s.pc.complete && i !in s.pc.queued && i !in s.pc.hashing && i !in s.pc.marking
              && (|| (exists k: nat :: k < |s.wants.filePrio| && F.Lists(s.cfg.geo, s.cfg.lengths, i, k)
                                       && s.wants.filePrio[k] != 0)
                  || (exists id :: id in s.wants.readers && s.wants.readers[id].0 <= i < s.wants.readers[id].1)
                  || (i < |s.wants.piecePrio| && s.wants.piecePrio[i] != 0))
  {
    InitIsGood(s0);
    RunIsSafe(s0, es);
    GoodPending(Run(s0, es).state, i);
    hide *;
  }

  lemma GoodPending(s: State, i: nat)
    requires Inv(s)
    ensures i in s.wants.pending <==>
              && i < s.cfg.grid.pieces && i !in s.pc.complete && i !in s.pc.queued && i !in s.pc.hashing && i !in s.pc.marking
              && (|| (exists k: nat :: k < |s.wants.filePrio| && F.Lists(s.cfg.geo, s.cfg.lengths, i, k)
                                       && s.wants.filePrio[k] != 0)
                  || (exists id :: id in s.wants.readers && s.wants.readers[id].0 <= i < s.wants.readers[id].1)
                  || (i < |s.wants.piecePrio| && s.wants.piecePrio[i] != 0))
  {
    assert i in s.wants.pending <==> Wanted(s, i);
    if i < s.cfg.grid.pieces {
      PriorityIsLargest(s.cfg, s.wants, i, PRIORITY_NONE);
      hide PurePriority, Sound, NoneStuck, HashersCounted, CacheExactBut, Config.Valid;
      assert i in s.wants.now <==> ReadNow(s.wants.readers, i);
      assert i in s.wants.readahead <==> ReadAhead(s.wants.readers, i);
    }
  }

  /**
    No piece gets stuck while the torrent is open; pending-write counters count the writes
    under way; the hashing and marking pieces number exactly the active hashers, within both caps.
  */
  lemma NoPieceGetsStuck(s0: State, es: seq<Event>)
    requires Init(s0)
    ensures Inv(s0) && Run(s0, es).Next?
    ensures var s := Run(s0, es).state;
            && (!s.closed ==> forall i: nat ::
                  i < s.cfg.grid.pieces && i !in s.pc.complete && s.cfg.grid.ChunksOf(i) <= s.pc.dirty
                  && |Writers(s.cfg.grid, s.pc.writing, i)| == 0
                  ==> i in s.pc.queued || i in s.pc.hashing || i in s.pc.marking)
            && (forall i: nat :: Pending(s.pc, i) == |Writers(s.cfg.grid, s.pc.writing, i)|)
            && s.pc.active == |s.pc.hashing + s.pc.marking|
            && s.pc.active <= s.cfg.maxHashers && s.pc.active + s.others <= s.cfg.cpus
  {
    InitIsGood(s0);
    RunIsSafe(s0, es);
    var s := Run(s0, es).state;
    forall i: nat | !s.closed && i < s.cfg.grid.pieces
      ensures s.cfg.grid.ChunksOf(i) <= s.pc.dirty ==> s.cfg.grid.AllDirty(s.pc.dirty, i)
      ensures !Stuck(s.cfg.grid, s.pc, i)
    {
      AllDirtyMeans(s.cfg.grid, s.pc.dirty, i);
    }
  }

  /** A dirty chunk is outstanding at no peer; a complete piece has neither dirty nor outstanding chunks. */
  lemma DirtyIsNeverOutstanding(s0: State, es: seq<Event>, p: PeerId, r: Req)
    requires Init(s0)
    ensures Inv(s0) && Run(s0, es).Next?
    ensures var s := Run(s0, es).state;
            p in s.book.peers && (r in s.pc.dirty || s.cfg.grid.PieceOf(r) in s.pc.complete)
            ==> r !in s.book.peers[p].requests
    ensures var s := Run(s0, es).state;
            s.cfg.grid.PieceOf(r) in s.pc.complete ==> r !in s.pc.dirty
  {
    InitIsGood(s0);
    RunIsSafe(s0, es);
    GoodStatesSeparate(Run(s0, es).state, p, r);
    hide *;
  }

  lemma GoodStatesSeparate(s: State, p: PeerId, r: Req)
    requires Inv(s)
    ensures p in s.book.peers && (r in s.pc.dirty || s.cfg.grid.PieceOf(r) in s.pc.complete)
            ==> r !in s.book.peers[p].requests
    ensures s.cfg.grid.PieceOf(r) in s.pc.complete ==> r !in s.pc.dirty
  {
    hide HashersCounted, NoneStuck, CacheExactBut, WritesCounted, ReadersCached;
    if p in s.book.peers {
      RecordsMirror(s.book, p, r);
    }
  }

  // ---------- what gets requested ----------

  /** No new owner is recorded, and downloading is stopped or allowed as before. */
  ghost predicate AddsNone(s: State, s1: State) {
    OwnersKept(s.book, s1.book) && s1.disallowed == s.disallowed
  }

  lemma {:induction false} FillLeavesBook(s: State)
    ensures FillHashers(s) == s.(pc := FillHashers(s).pc, wants := FillHashers(s).wants)
    decreases |s.pc.queued|
  {
    match NextHash(s)
    case None =>
    case Some(i) => FillLeavesBook(StartHashing(s, i));
  }

  lemma CompletionAddsNone(s: State, i: nat, complete: bool, okChanged: bool)
    ensures AddsNone(s, UpdateCompletion(s, i, complete, okChanged))
  {
  }

  lemma HashEndAddsNone(s: State, e: Event)
    requires Inv(s) && AboutHashes(e) && Step(s, e).Next?
    ensures AddsNone(s, Step(s, e).state)
  {
    hide Inv, UpdateCompletion, MarkDone, HashFailed;
    match e
    case Verify(i) =>
      FillLeavesBook(Reprioritize(s.(pc := s.pc.(queued := s.pc.queued + {i})), i));
    case Passed(i) =>
      var s1 := Reprioritize(s.(pc := s.pc.(hashing := s.pc.hashing - {i})), i);
      FillLeavesBook(s1.(pc := s1.pc.(active := s1.pc.active - 1)));
    case Marked(i, complete, okChanged) =>
      MarkAddsNone(s, i, complete, okChanged);
    case Failed(i, complete, okChanged) =>
      FailAddsNone(s, i, complete, okChanged);
    case Completion(i, complete, okChanged) =>
      CompletionAddsNone(s, i, complete, okChanged);
  }

  lemma FinishLeavesBook(s: State, i: nat)
    ensures FinishHash(s, i).book == s.book && FinishHash(s, i).disallowed == s.disallowed
  {
    var s1 := Reprioritize(s, i);
    FillLeavesBook(s1.(pc := s1.pc.(active := s1.pc.active - 1)));
  }

  lemma MarkAddsNone(s: State, i: nat, complete: bool, okChanged: bool)
    ensures AddsNone(s, MarkDone(s, i, complete, okChanged))
  {
    var s0 := s.(pc := s.pc.(dirty := PendAll(s.cfg.grid, s.pc.dirty, i)));
    CompletionAddsNone(s0, i, complete, okChanged);
    var s1 := if s.closed then s else UpdateCompletion(s0, i, complete, okChanged);
    FinishLeavesBook(s1.(pc := s1.pc.(marking := s1.pc.marking - {i})), i);
  }

  lemma FailAddsNone(s: State, i: nat, complete: bool, okChanged: bool)
    ensures AddsNone(s, HashFailed(s, i, complete, okChanged))
  {
    var s1 := s.(pc := s.pc.(hashing := s.pc.hashing - {i}));
    FinishLeavesBook(s1, i);
    var s2 := OnIncomplete(s1.(pc := s1.pc.(marking := s1.pc.marking + {i})), i);
    CompletionAddsNone(s2, i, complete, okChanged);
    var s3 := UpdateCompletion(s2, i, complete, okChanged);
    FinishLeavesBook(s3.(pc := s3.pc.(marking := s3.pc.marking - {i})), i);
  }

  lemma ReceiveAddsNone(s: State, p: PeerId, index: nat, begin: nat, now: int)
    requires Sound(s.book) && p in s.book.peers && s.cfg.geo.chunkSize > 0
    ensures ReceiveChunk(s, p, index, begin, now).Done?
    ensures AddsNone(s, ReceiveChunk(s, p, index, begin, now).value)
  {
    hide Sound, TakeExpected;
    if index < s.cfg.geo.pieces && begin < s.cfg.geo.PieceLength(index) {
      var r := s.cfg.geo.FromRequest(G.Request(index, begin, 0));
      if r in s.book.peers[p].expected {
        TakeExpectedAddsNone(s, p, r, now);
      }
    }
  }

  lemma TakeExpectedAddsNone(s: State, p: PeerId, r: Req, now: int)
    requires Sound(s.book) && p in s.book.peers && r in s.book.peers[p].expected
    ensures TakeExpected(s, p, r, now).Done? && AddsNone(s, TakeExpected(s, p, r, now).value)
  {
    hide Sound, BeginWrite, TakeChunk;
    TakeChunkSafe(s.book, p, r);
    TakeChunkEffect(s.book, p, r);
    var b1 := TakeChunk(s.book, p, r).value.0;
    BeginWriteEffect(s.(book := b1), p, r, now);
  }

  lemma EndWriteAddsNone(s: State, p: PeerId, ok: bool)
    requires p in s.pc.writing && EndWrite(s, p, ok, true, []).Done?
    ensures AddsNone(s, EndWrite(s, p, ok, true, []).value)
  {
    var i := s.cfg.grid.PieceOf(s.pc.writing[p]);
    var pc1 := s.pc.(pendingWrites := s.pc.pendingWrites[i := Pending(s.pc, i) - 1], writing := s.pc.writing - {p});
    FillLeavesBook(Reprioritize(s.(pc := pc1.(queued := pc1.queued + {i})), i));
  }

  lemma PeerStepAddsNone(s: State, p: PeerId, e: PeerEvent)
    requires Inv(s) && PeerStep(s, p, e).Next?
    ensures AddsNone(s, PeerStep(s, p, e).state)
  {
    if e.Rejects? {
      RemoteRejectedSafe(s.book, p, e.r);
    }
  }

  lemma OtherStepsAddNone(s: State, e: Event)
    requires Inv(s) && Step(s, e).Next? && !e.UpdateRequests? && !e.StopDownload? && !e.AllowDownload? && !e.MergeSpec?
    requires !(e.WriteDone? && !e.ok && !e.handled)
    ensures AddsNone(s, Step(s, e).state)
  {
    if e.OfPeer? {
      PeerStepAddsNone(s, e.p, e.what);
    } else if e.Receive? {
      ReceiveAddsNone(s, e.p, e.index, e.begin, e.now);
    } else if e.WriteDone? {
      EndWriteKeeps(s, e.p, e.ok, true, []);
      EndWriteAddsNone(s, e.p, e.ok);
    } else if AboutHashes(e) {
      HashEndAddsNone(s, e);
    } else if AboutWants(e) {
      WantsStepShape(s, e);
    }
  }

  /** Nothing but `applyRequestState` ever records a new owner. */
  lemma OnlyUpdatesRequest(s: State, e: Event)
    requires Inv(s) && Step(s, e).Next? && !e.UpdateRequests?
    ensures OwnersKept(s.book, Step(s, e).state.book)
  {
    if e.StopDownload? {
      DisallowKeeps(s, e.visits);
    } else if e.WriteDone? && !e.ok && !e.handled {
      EndWriteKeeps(s, e.p, e.ok, e.handled, e.visits);
    } else if !e.AllowDownload? && !e.MergeSpec? {
      OtherStepsAddNone(s, e);
    }
  }

  // ---------- stopping all downloading ----------

  /** While downloading is stopped nothing is outstanding. */
  ghost predicate Quiet(s: State) {
    s.disallowed ==> s.book.owner == map[]
  }

  /** However it was stopped, nothing new is requested until it is allowed again. */
  lemma NothingNewWhileStopped(s: State, e: Event)
    requires Inv(s) && s.disallowed && Step(s, e).Next?
    ensures OwnersKept(s.book, Step(s, e).state.book)
  {
    if !e.UpdateRequests? {
      OnlyUpdatesRequest(s, e);
    }
  }

  /** Only stopping, a failed write and a merged specification change whether downloading is stopped. */
  lemma FlagStays(s: State, e: Event)
    requires Inv(s) && Step(s, e).Next? && !e.StopDownload? && !e.AllowDownload? && !e.MergeSpec?
    requires !(e.WriteDone? && !e.ok && !e.handled)
    ensures Step(s, e).state.disallowed == s.disallowed
  {
    if e.UpdateRequests? {
      AppliesToBook(s, e.p, e.pulls, e.maxReq);
    } else {
      OtherStepsAddNone(s, e);
    }
  }

  lemma QuietStep(s: State, e: Event)
    requires Inv(s) && Quiet(s) && Step(s, e).Next? && e != MergeSpec(true)
    ensures Quiet(Step(s, e).state)
  {
    if e.StopDownload? {
      DisallowKeeps(s, e.visits);
    } else if e.WriteDone? && !e.ok && !e.handled {
      EndWriteKeeps(s, e.p, e.ok, e.handled, e.visits);
    } else if !e.AllowDownload? && !e.MergeSpec? {
      FlagStays(s, e);
      if s.disallowed {
        NothingNewWhileStopped(s, e);
      }
    }
  }

  /** The specifications merged in the run that stop downloading find nothing outstanding. */
  ghost predicate MergedInTime(s: State, es: seq<Event>)
    requires Inv(s)
    decreases |es|
  {
    es == [] ||
    (StepKeeps(s, es[0]);
     match Step(s, es[0])
     case Disabled => MergedInTime(s, es[1..])
     case Next(s1) => (es[0] == MergeSpec(true) ==> s.book.owner == map[]) && MergedInTime(s1, es[1..]))
  }

  ghost predicate QuietThroughout(s: State, es: seq<Event>)
    requires Inv(s)
    decreases |es|
  {
    Quiet(s) &&
    (es == [] ||
     (StepKeeps(s, es[0]);
      match Step(s, es[0])
      case Disabled => QuietThroughout(s, es[1..])
      case Next(s1) => QuietThroughout(s1, es[1..])))
  }

  lemma {:induction false} QuietRun(s: State, es: seq<Event>)
    requires Inv(s) && Quiet(s)
    ensures QuietThroughout(s, es) <==> MergedInTime(s, es)
    decreases |es|
  {
    if es != [] {
      StepKeeps(s, es[0]);
      assert s.cfg.geo.Valid() && WellSized(s.cfg, s.wants);
      hide Inv, Quiet, Step;
      match Step(s, es[0])
      case Disabled => QuietRun(s, es[1..]);
      case Next(s1) =>
        QuietNext(s, es[0]);
        if Quiet(s1) {
          QuietRun(s1, es[1..]);
        } else {
          NotQuiet(s1, es[1..]);
        }
    }
  }

  lemma QuietNext(s: State, e: Event)
    requires Inv(s) && Quiet(s) && Step(s, e).Next?
    ensures Quiet(Step(s, e).state) <==> (e == MergeSpec(true) ==> s.book.owner == map[])
  {
    if e != MergeSpec(true) {
      QuietStep(s, e);
    }
  }

  lemma NotQuiet(s: State, es: seq<Event>)
    requires Inv(s) && !Quiet(s)
    ensures !QuietThroughout(s, es)
  {
  }

  /**
    While downloading is stopped, by hand or by a failed write, nothing is outstanding at any time of any run. Merging
    a specification that stops it is the one way round this: the runs that stay quiet are exactly those in which every
    such merge finds nothing outstanding.
  */
  lemma StoppedMeansQuiet(s0: State, es: seq<Event>)
    requires Init(s0)
    ensures Inv(s0) && (QuietThroughout(s0, es) <==> MergedInTime(s0, es))
  {
    InitIsGood(s0);
    QuietRun(s0, es);
  }

  lemma NobodyAsks(b: Book)
    requires Sound(b)
    ensures b.owner == map[] ==> forall p :: p in b.peers ==> b.peers[p].requests == {}
  {
    forall p | p in b.peers && b.owner == map[] ensures b.peers[p].requests == {} {
      assert forall r :: r !in b.peers[p].requests;
    }
  }

  lemma SomebodyAsks(b: Book)
    requires Sound(b)
    ensures b.owner == map[] <==> forall p :: p in b.peers ==> b.peers[p].requests == {}
  {
    NobodyAsks(b);
    if b.owner != map[] {
      var r :| r in b.owner;
      assert r in b.peers[b.owner[r]].requests;
    }
  }

  /** A merged specification that stops downloading leaves the torrent quiet exactly when nothing was outstanding. */
  lemma MergeSpecLeavesRequests(s: State)
    requires Inv(s)
    ensures Step(s, MergeSpec(true)).Next?
    ensures Quiet(Step(s, MergeSpec(true)).state) <==> forall p :: p in s.book.peers ==> s.book.peers[p].requests == {}
  {
    SomebodyAsks(s.book);
    hide Sound;
  }

  /** A connection with the fast extension, as far as it has told what it has and whether it chokes. */
  function Remote(choking: bool, has: set<nat>): Peer {
    Peer(true, true, {}, true, false, choking, has, {}, {}, map[], 0)
  }

  function Alone(c: Peer): Book {
    Book(map[7 := c], map[])
  }

  lemma PeerTold(s: State, c: Peer, e: PeerEvent, d: Peer)
    requires Inv(s) && s.book == Alone(c) && !c.closed && !s.closed && 7 !in s.pc.writing
    requires (e.Has? && d == c.(has := e.has)) || (e.Unchokes? && d == c.(choking := false))
    ensures StepsTo(s, OfPeer(7, e), s.(book := Alone(d))) && Inv(s.(book := Alone(d)))
  {
    StepKeeps(s, OfPeer(7, e));
    PeerToldStep(s, c, e, d);
    hide Inv, PeerStep;
  }

  lemma PeerToldStep(s: State, c: Peer, e: PeerEvent, d: Peer)
    requires s.book == Alone(c) && !c.closed && !s.closed && 7 !in s.pc.writing
    requires (e.Has? && d == c.(has := e.has)) || (e.Unchokes? && d == c.(choking := false))
    ensures PeerStep(s, 7, e) == Next(s.(book := Alone(d)))
  {
    assert map[7 := c][7 := d] == map[7 := d];
  }

  lemma PeerJoins(s: State)
    requires Init(s) && Inv(s)
    ensures StepsTo(s, OfPeer(7, Joins(true, true, {})), s.(book := Alone(Remote(true, {}))))
    ensures Inv(s.(book := Alone(Remote(true, {}))))
  {
    StepKeeps(s, OfPeer(7, Joins(true, true, {})));
    assert map[][7 := Remote(true, {})] == map[7 := Remote(true, {})];
  }

  /** The first piece is asked for, and so becomes pending. */
  lemma PieceAsked(s: State) returns (s1: State)
    requires Inv(s) && s.pc == Pieces({}, map[], map[], {}, {}, {}, {}, 0) && s.cfg.grid.pieces > 0
    ensures StepsTo(s, PiecePriority(0, PRIORITY_NORMAL), s1)
    ensures Inv(s1) && s1 == s.(wants := s1.wants) && 0 in s1.wants.pending
  {
    StepKeeps(s, PiecePriority(0, PRIORITY_NORMAL));
    s1 := Step(s, PiecePriority(0, PRIORITY_NORMAL)).state;
  }

  function AskFor(r: Req): Event {
    UpdateRequests(7, {0}, true, [Pull(r, 10, true)], 10)
  }

  lemma ChunkAsked(s: State, r: Req)
    requires Inv(s) && s.book == Alone(Remote(false, {0})) && !s.closed && !s.disallowed
    requires 0 in s.wants.pending && s.cfg.grid.IsChunk(r) && s.cfg.grid.PieceOf(r) == 0 && r !in s.pc.dirty
    ensures StepsTo(s, AskFor(r), s.(book := AddRequest(s.book, 7, r))) && Inv(s.(book := AddRequest(s.book, 7, r)))
  {
    MayAsk(s, r);
    StepKeeps(s, AskFor(r));
    AskStep(s, r);
    hide Inv, Step, ApplyPulls, MayRequest;
    OnePull(s, r);
  }

  lemma AskStep(s: State, r: Req)
    requires s.cfg.geo.pieceSize > 0 && s.cfg.geo.chunkSize > 0 && WellSized(s.cfg, s.wants)
    requires s.book == Alone(Remote(false, {0})) && !s.closed && !s.disallowed
    requires 0 in s.wants.pending && Desired(s, 7, {0}, r)
    ensures Step(s, AskFor(r)) == Lift(ApplyPulls(s, 7, [Pull(r, 10, true)], 10))
  {
    hide ApplyPulls, Desired;
  }

  lemma MayAsk(s: State, r: Req)
    requires Inv(s) && s.book == Alone(Remote(false, {0}))
    requires 0 in s.wants.pending && s.cfg.grid.IsChunk(r) && s.cfg.grid.PieceOf(r) == 0 && r !in s.pc.dirty
    ensures Desired(s, 7, {0}, r) && MayRequest(s, 7, r)
  {
    DesiredIsGrantable(s, 7, {0}, r);
  }

  lemma OnePull(s: State, r: Req)
    requires s.book == Alone(Remote(false, {0})) && MayRequest(s, 7, r)
    ensures ApplyPulls(s, 7, [Pull(r, 10, true)], 10) == Done(s.(book := AddRequest(s.book, 7, r)))
  {
    var pull, s1 := Pull(r, 10, true), s.(book := AddRequest(s.book, 7, r));
    hide MayRequest;
    assert TryPull(s, 7, pull) == Done((s1.book, true));
    PullUnfolds(s, 7, [pull], 10);
    PullUnfolds(s1, 7, [], 10);
    assert [pull][1..] == [];
  }

  lemma InitFacts(s: State)
    requires Init(s)
    ensures s.pc == Pieces({}, map[], map[], {}, {}, {}, {}, 0) && !s.closed && s.book == Book(map[], map[])
  {
  }

  /** From the start of a torrent: a peer joins, has the first piece and unchokes, and the piece is asked for. */
  lemma Asking(s0: State) returns (s1: State, s2: State, s3: State, s4: State)
    requires Init(s0) && Inv(s0) && s0.cfg.grid.pieces > 0
    ensures StepsTo(s0, OfPeer(7, Joins(true, true, {})), s1) && StepsTo(s1, OfPeer(7, Has({0})), s2)
    ensures StepsTo(s2, OfPeer(7, Unchokes), s3) && StepsTo(s3, PiecePriority(0, PRIORITY_NORMAL), s4)
    ensures s4 == s0.(book := Alone(Remote(false, {0})), wants := s4.wants) && 0 in s4.wants.pending
    ensures Inv(s4)
  {
    InitFacts(s0);
    hide Init, Inv, StepsTo;
    s1 := s0.(book := Alone(Remote(true, {})));
    s2 := s0.(book := Alone(Remote(true, {0})));
    s3 := s0.(book := Alone(Remote(false, {0})));
    PeerJoins(s0);
    PeerTold(s1, Remote(true, {}), Has({0}), Remote(true, {0}));
    PeerTold(s2, Remote(true, {0}), Unchokes, Remote(false, {0}));
    s4 := PieceAsked(s3);
  }

  lemma Merges(s: State)
    requires Inv(s)
    ensures StepsTo(s, MergeSpec(true), s.(disallowed := true)) && Inv(s.(disallowed := true))
  {
    StepKeeps(s, MergeSpec(true));
  }

  /** Such a run exists: a chunk is requested, then a specification that stops downloading is merged. */
  lemma MergedWhileAsking() returns (s0: State, es: seq<Event>, s: State)
    ensures Init(s0) && !s0.disallowed && Reaches(s0, es, s)
    ensures s.disallowed && 7 in s.book.peers && s.book.peers[7].requests != {}
  {
    s0 := StartAllowed();
    InitFacts(s0);
    FirstChunk(s0.cfg.grid, 0);
    hide Init, Inv, StepsTo, Reaches;
    var s1, s2, s3, s4 := Asking(s0);
    es, s := AskThenMerge(s4, s0.cfg.grid.First(0));
    ReachesFrom(s3, PiecePriority(0, PRIORITY_NORMAL), s4, es, s);
    es := [PiecePriority(0, PRIORITY_NORMAL)] + es;
    ReachesFrom(s2, OfPeer(7, Unchokes), s3, es, s);
    es := [OfPeer(7, Unchokes)] + es;
    ReachesFrom(s1, OfPeer(7, Has({0})), s2, es, s);
    es := [OfPeer(7, Has({0}))] + es;
    ReachesFrom(s0, OfPeer(7, Joins(true, true, {})), s1, es, s);
    es := [OfPeer(7, Joins(true, true, {}))] + es;
  }

  lemma AskThenMerge(s: State, r: Req) returns (es: seq<Event>, end: State)
    requires Inv(s) && s.book == Alone(Remote(false, {0})) && !s.closed && !s.disallowed
    requires 0 in s.wants.pending && s.cfg.grid.IsChunk(r) && s.cfg.grid.PieceOf(r) == 0 && r !in s.pc.dirty
    ensures Reaches(s, es, end) && end.disallowed && 7 in end.book.peers && end.book.peers[7].requests != {}
  {
    hide Inv, StepsTo, Reaches;
    var s1 := s.(book := AddRequest(s.book, 7, r));
    end := s1.(disallowed := true);
    ChunkAsked(s, r);
    Merges(s1);
    ReachesItself(end);
    ReachesFrom(s1, MergeSpec(true), end, [], end);
    es := [MergeSpec(true)] + [];
    ReachesFrom(s, AskFor(r), s1, es, end);
    es := [AskFor(r)] + es;
    assert end.book.peers[7].requests == {r};
  }

  lemma StartAllowed() returns (s: State)
    ensures Init(s) && Inv(s) && !s.disallowed && s.cfg.grid.pieces == 3
  {
    s := SmallTorrent();
    s := s.(disallowed := false);
    InitIsGood(s);
  }

  /** An owner after a pass over the pulls: as before, or the asking peer for one of the pulled chunks. */
  lemma {:induction false} AppliedOwners(s: State, p: PeerId, pulls: seq<Pull>, maxReq: int, r: Req)
    requires Core(s) && p in s.book.peers
    requires forall k :: 0 <= k < |pulls| ==> Grantable(s, p, pulls[k].req)
    ensures ApplyPulls(s, p, pulls, maxReq).Done?
    ensures var b := ApplyPulls(s, p, pulls, maxReq).value.book;
            r in b.owner ==>
              || (r in s.book.owner && b.owner[r] == s.book.owner[r])
              || (b.owner[r] == p && exists k :: 0 <= k < |pulls| && pulls[k].req == r)
    decreases |pulls|
  {
    assert Sound(s.book);
    hide Core, Sound, Grantable, SameFooting, TryPull, Outstanding;
    PullUnfolds(s, p, pulls, maxReq);
    hide ApplyPulls;
    if pulls != [] && Outstanding(s.book, p) < maxReq {
      TryPullSafe(s, p, pulls[0]);
      PullOwners(s, p, pulls[0], r);
      var (b, go) := TryPull(s, p, pulls[0]).value;
      if go {
        StillAskable(s, b, p, pulls);
        AppliedOwners(s.(book := b), p, pulls[1..], maxReq, r);
        if k :| 0 <= k < |pulls[1..]| && pulls[1..][k].req == r {
          assert pulls[k + 1].req == r;
        }
      }
    }
  }

  lemma PullUnfolds(s: State, p: PeerId, pulls: seq<Pull>, maxReq: int)
    requires p in s.book.peers
    ensures ApplyPulls(s, p, pulls, maxReq) ==
            if pulls == [] || Outstanding(s.book, p) >= maxReq then Done(s)
            else match TryPull(s, p, pulls[0])
                 case Panic => Panic
                 case Done(r) => if r.1 then ApplyPulls(s.(book := r.0), p, pulls[1..], maxReq) else Done(s.(book := r.0))
  {
    hide TryPull, Outstanding;
  }

  lemma StillAskable(s: State, b: Book, p: PeerId, pulls: seq<Pull>)
    requires pulls != [] && forall k :: 0 <= k < |pulls| ==> Grantable(s, p, pulls[k].req)
    requires p in s.book.peers && p in b.peers && SameFooting(s.book.peers[p], b.peers[p])
    ensures forall k :: 0 <= k < |pulls[1..]| ==> Grantable(s.(book := b), p, pulls[1..][k].req)
  {
    forall k | 0 <= k < |pulls[1..]| ensures Grantable(s.(book := b), p, pulls[1..][k].req) {
      assert pulls[1..][k] == pulls[k + 1];
    }
  }

  lemma MadeOwners(s: State, p: PeerId, r: Req, limit: int)
    requires p in s.book.peers && MakeRequest(s, p, r, limit).Done?
    ensures var b := MakeRequest(s, p, r, limit).value.0;
            b.owner == s.book.owner || b.owner == s.book.owner[r := p]
  {
  }

  lemma PullOwners(s: State, p: PeerId, pull: Pull, r: Req)
    requires Sound(s.book) && p in s.book.peers && TryPull(s, p, pull).Done?
    ensures var o, o1 := s.book.owner, TryPull(s, p, pull).value.0.owner;
            r in o1 ==> (r in o && o1[r] == o[r]) || (o1[r] == p && r == pull.req)
  {
    hide Sound, CancelRequest, MakeRequest;
    var q := pull.req;
    if q in s.book.owner && s.book.owner[q] != p {
      CancelRequestSafe(s.book, q);
      if MaySteal(s.book, p, s.book.owner[q]) {
        MadeOwners(s.(book := CancelRequest(s.book, q).value), p, q, pull.limit);
      }
    } else {
      MadeOwners(s, p, q, pull.limit);
    }
  }

  /**
    Every request ever issued is for a wanted chunk: of a piece whose priority is not None,
    that is not complete, hashing, marking or queued, from an open connected peer that has it
    and permits it, while the torrent is open and allowed to download; and the chunk is neither dirty nor awaiting a cancel's answer.
  */
  lemma RequestsAreWanted(s: State, e: Event, r: Req)
    requires Inv(s) && Step(s, e).Next?
    requires var b := Step(s, e).state.book;
             r in b.owner && !(r in s.book.owner && s.book.owner[r] == b.owner[r])
    ensures e.UpdateRequests? && Step(s, e).state.book.owner[r] == e.p && e.p in s.book.peers
    ensures !s.closed && !s.disallowed
    ensures var c, i := s.book.peers[e.p], s.cfg.grid.PieceOf(r);
            && Wanted(s, i) && i !in s.pc.complete && i !in s.pc.queued && i !in s.pc.hashing && i !in s.pc.marking
            && s.cfg.grid.IsChunk(r) && r !in s.pc.dirty && r !in c.cancelled
            && c.active && !c.closed && i in c.has
            && (!c.choking || i in c.allowedFast || r in c.requests)
  {
    if !e.UpdateRequests? {
      OnlyUpdatesRequest(s, e);
    } else {
      forall k | 0 <= k < |e.pulls| ensures Grantable(s, e.p, e.pulls[k].req) {
        DesiredIsGrantable(s, e.p, e.visited, e.pulls[k].req);
      }
      AppliedOwners(s, e.p, e.pulls, e.maxReq, r);
      var k :| 0 <= k < |e.pulls| && e.pulls[k].req == r;
      DesiredIsGrantable(s, e.p, e.visited, e.pulls[k].req);
    }
  }
}

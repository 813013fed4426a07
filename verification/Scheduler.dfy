/**
  The download scheduler of a torrent as a state machine. Each function is one critical
  section (or a part of one) under the client lock; the two places where the code drops the
  lock in mid-operation, writing a chunk and marking a piece complete, are split into a
  beginning and an end. `Step` dispatches events; `Crash` is an explicit panic of the code.
*/
module Scheduler {
  import opened Outcomes
  import opened Ledger
  import opened Grids
  import F = Files
  import G = Geometry

  const PRIORITY_NONE: nat := 0
  const PRIORITY_NORMAL: nat := 1
  const PRIORITY_READAHEAD: nat := 3
  const PRIORITY_NOW: nat := 5

  datatype Config = Config(geo: G.Geo, lengths: seq<nat>, grid: Grid, maxHashers: nat, cpus: nat) {
    ghost predicate Valid() {
      geo.Valid() && F.Accepted(geo, lengths) && grid == GridOf(geo)
    }
  }

  /** What is wanted: file, piece and reader priorities, and the cache `pending` of wanted pieces. */
  datatype Wants = Wants(
    filePrio: seq<nat>,
    piecePrio: seq<nat>,
    readers: map<nat, (nat, nat)>,
    now: set<nat>,
    readahead: set<nat>,
    pending: set<nat>)

  /** What state each piece and chunk is in. */
  datatype Pieces = Pieces(
    dirty: set<Req>,
    writing: map<PeerId, Req>,       // received chunks being written with the lock dropped
    pendingWrites: map<nat, nat>,
    complete: set<nat>,
    queued: set<nat>,
    hashing: set<nat>,
    marking: set<nat>,
    active: int)                     // activePieceHashes

  datatype State = State(
    cfg: Config,
    book: Book,
    pc: Pieces,
    wants: Wants,
    others: nat,                     // hashers of the client's other torrents
    closed: bool,
    disallowed: bool)                // dataDownloadDisallowed

  // ---------- priorities ----------

  function Max(a: nat, b: nat): nat {
    if a < b then b else a
  }

  function MaxOf(prios: seq<nat>): nat {
    if prios == [] then PRIORITY_NONE else Max(prios[0], MaxOf(prios[1..]))
  }

  predicate WellSized(cfg: Config, w: Wants) {
    |w.piecePrio| == cfg.grid.pieces && |w.filePrio| == |cfg.lengths|
  }

  /** The priorities of the files a piece lists. */
  function ListedPrios(cfg: Config, w: Wants, i: nat): seq<nat> {
    var (first, end) := F.PieceFiles(cfg.geo, cfg.lengths, i);
    if first <= end <= |w.filePrio| then w.filePrio[first..end] else []
  }

  function PurePriority(cfg: Config, w: Wants, i: nat): nat
    requires i < |w.piecePrio|
  {
    var byFile := MaxOf(ListedPrios(cfg, w, i));
    var byNow := if i in w.now then Max(byFile, PRIORITY_NOW) else byFile;
    var byAhead := if i in w.readahead then Max(byNow, PRIORITY_READAHEAD) else byNow;
    Max(byAhead, w.piecePrio[i])
  }

  predicate Busy(pc: Pieces, i: nat) {
    i in pc.hashing || i in pc.marking || i in pc.complete || i in pc.queued
  }

  /** `uncachedPriority(i) != None`. */
  predicate Wanted(s: State, i: nat) {
    i < |s.wants.piecePrio| && !Busy(s.pc, i) && PurePriority(s.cfg, s.wants, i) != PRIORITY_NONE
  }

  function Reprioritize(s: State, i: nat): State {
    s.(wants := s.wants.(pending := if Wanted(s, i) then s.wants.pending + {i} else s.wants.pending - {i}))
  }

  function ReprioritizeRange(s: State, begin: nat, end: nat): State {
    s.(wants := s.wants.(pending :=
      (set i | i in s.wants.pending && !(begin <= i < end)) + (set i | begin <= i < end && Wanted(s, i))))
  }

  predicate ReadNow(readers: map<nat, (nat, nat)>, j: nat) {
    exists id :: id in readers && readers[id].0 == j < readers[id].1
  }

  predicate ReadAhead(readers: map<nat, (nat, nat)>, j: nat) {
    exists id :: id in readers && readers[id].0 < j < readers[id].1
  }

  function NowPieces(n: nat, readers: map<nat, (nat, nat)>): set<nat> {
    set j | 0 <= j < n && ReadNow(readers, j)
  }

  function AheadPieces(n: nat, readers: map<nat, (nat, nat)>): set<nat> {
    set j | 0 <= j < n && ReadAhead(readers, j)
  }

  function UpdateReaderPieces(s: State): State {
    s.(wants := s.wants.(now := NowPieces(s.cfg.grid.pieces, s.wants.readers),
                         readahead := AheadPieces(s.cfg.grid.pieces, s.wants.readers)))
  }

  function ReaderPosChanged(s: State, from: (nat, nat), to: (nat, nat)): State {
    if from == to then s
    else
      var s1 := UpdateReaderPieces(s);
      var (l, h) := if from.0 > to.0 then (to, from) else (from, to);
      if l.1 < h.0 then ReprioritizeRange(ReprioritizeRange(s1, l.0, l.1), h.0, h.1)
      else ReprioritizeRange(s1, l.0, Max(l.1, h.1))
  }

  function MoveReader(s: State, id: nat, off: int, size: int): State
    requires id in s.wants.readers && s.cfg.geo.pieceSize > 0
  {
    MoveWindow(s, id, F.ByteRegionPieces(s.cfg.geo, off, size))
  }

  function MoveWindow(s: State, id: nat, to: (nat, nat)): State
    requires id in s.wants.readers
  {
    ReaderPosChanged(s.(wants := s.wants.(readers := s.wants.readers[id := to])), s.wants.readers[id], to)
  }

  function DeleteReader(s: State, id: nat): State {
    ReprioritizeRange(UpdateReaderPieces(s.(wants := s.wants.(readers := s.wants.readers - {id}))),
                      0, s.cfg.grid.pieces)
  }

  function SetFilePriority(s: State, k: nat, prio: nat): State
    requires k < |s.wants.filePrio| && k < |s.cfg.lengths|
  {
    if s.wants.filePrio[k] == prio then s
    else ReprioritizeRange(s.(wants := s.wants.(filePrio := s.wants.filePrio[k := prio])),
                           F.BeginPiece(s.cfg.geo, s.cfg.lengths, k), F.EndPiece(s.cfg.geo, s.cfg.lengths, k))
  }

  function SetPiecePriority(s: State, i: nat, prio: nat): State
    requires i < |s.wants.piecePrio|
  {
    Reprioritize(s.(wants := s.wants.(piecePrio := s.wants.piecePrio[i := prio])), i)
  }

  /** What a loop over `[begin, end)` that sets each piece priority through `f` leaves. */
  function MapPiecePriorities(s: State, begin: nat, end: nat, f: nat -> nat): State {
    var prios := s.wants.piecePrio;
    var after := seq(|prios|, i requires 0 <= i < |prios| => if begin <= i < end then f(prios[i]) else prios[i]);
    ReprioritizeRange(s.(wants := s.wants.(piecePrio := after)), begin, end)
  }

  function AtLeastNormal(prio: nat): nat {
    Max(prio, PRIORITY_NORMAL)
  }

  function NotWanted(prio: nat): nat {
    PRIORITY_NONE
  }

  function DownloadPieces(s: State, begin: nat, end: nat): State {
    MapPiecePriorities(s, begin, end, AtLeastNormal)
  }

  function CancelPieces(s: State, begin: nat, end: nat): State {
    MapPiecePriorities(s, begin, end, NotWanted)
  }

  // ---------- pieces ----------

  function PendAll(g: Grid, dirty: set<Req>, i: nat): set<Req> {
    set r | r in dirty && g.PieceOf(r) != i
  }

  function OnIncomplete(s: State, i: nat): State {
    if s.cfg.grid.AllDirty(s.pc.dirty, i) then s.(pc := s.pc.(dirty := PendAll(s.cfg.grid, s.pc.dirty, i))) else s
  }

  function OnCompleted(s: State, i: nat): State {
    s.(pc := s.pc.(dirty := PendAll(s.cfg.grid, s.pc.dirty, i)),
       book := WithoutChunks(s.book, s.cfg.grid.ChunksOf(i)))
  }

  /** `complete` and `okChanged` are what storage answers, against what was cached. */
  function UpdateCompletion(s: State, i: nat, complete: bool, okChanged: bool): State {
    var was := s.pc.complete;
    var s1 := s.(pc := s.pc.(complete := if complete then was + {i} else was - {i}));
    if complete == (i in was) && !okChanged then s1
    else Reprioritize(if complete then OnCompleted(s1, i) else OnIncomplete(s1, i), i)
  }

  /** First queued piece at or after `i` that is neither hashing nor marking. */
  function PieceToHash(pc: Pieces, i: nat, n: nat): (r: Option<nat>)
    requires i <= n
    ensures r.Some? ==> r.value in pc.queued && r.value !in pc.hashing && r.value !in pc.marking && r.value < n
    decreases n - i
  {
    if i == n then None
    else if i in pc.queued && i !in pc.hashing && i !in pc.marking then Some(i)
    else PieceToHash(pc, i + 1, n)
  }

  function StartHashing(s: State, i: nat): State {
    var s1 := s.(pc := s.pc.(queued := s.pc.queued - {i}, hashing := s.pc.hashing + {i}));
    var s2 := Reprioritize(s1, i);
    s2.(pc := s2.pc.(active := s2.pc.active + 1))
  }

  /** The piece the next hasher would be started for, if one may be started at all. */
  function NextHash(s: State): Option<nat> {
    if s.closed || s.pc.active >= s.cfg.maxHashers || s.pc.active + s.others >= s.cfg.cpus then None
    else PieceToHash(s.pc, 0, s.cfg.grid.pieces)
  }

  function FillHashers(s: State): State
    decreases |s.pc.queued|
  {
    match NextHash(s)
    case None => s
    case Some(i) => FillHashers(StartHashing(s, i))
  }

  function QueueCheck(s: State, i: nat): State {
    if i in s.pc.queued then s
    else FillHashers(Reprioritize(s.(pc := s.pc.(queued := s.pc.queued + {i})), i))
  }

  /** The end of a hasher: re-evaluate, give the slot back, start others. */
  function FinishHash(s: State, i: nat): State {
    var s1 := Reprioritize(s, i);
    FillHashers(s1.(pc := s1.pc.(active := s1.pc.active - 1)))
  }

  function HashPassed(s: State, i: nat): State {
    var s1 := s.(pc := s.pc.(hashing := s.pc.hashing - {i}));
    if s.closed then FinishHash(s1, i)
    else s1.(pc := s1.pc.(marking := s1.pc.marking + {i}))   // the lock is dropped here
  }

  function MarkDone(s: State, i: nat, complete: bool, okChanged: bool): State {
    var s1 := if s.closed then s
              else UpdateCompletion(s.(pc := s.pc.(dirty := PendAll(s.cfg.grid, s.pc.dirty, i))), i, complete, okChanged);
    FinishHash(s1.(pc := s1.pc.(marking := s1.pc.marking - {i})), i)
  }

  function HashFailed(s: State, i: nat, complete: bool, okChanged: bool): State {
    var s1 := s.(pc := s.pc.(hashing := s.pc.hashing - {i}));
    if s.closed then FinishHash(s1, i)
    else
      var s2 := s1.(pc := s1.pc.(marking := s1.pc.marking + {i}));
      var s3 := UpdateCompletion(OnIncomplete(s2, i), i, complete, okChanged);
      FinishHash(s3.(pc := s3.pc.(marking := s3.pc.marking - {i})), i)
  }

  // ---------- chunks ----------

  predicate HaveChunk(s: State, r: Req) {
    s.cfg.grid.PieceOf(r) in s.pc.complete || r in s.pc.dirty
  }

  function Pending(pc: Pieces, i: nat): nat {
    if i in pc.pendingWrites then pc.pendingWrites[i] else 0
  }

  /** Receiving a block up to the point where the lock is dropped to write it. */
  function ReceiveChunk(s: State, p: PeerId, index: nat, begin: nat, now: int): Outcome<State>
    requires p in s.book.peers && s.cfg.geo.chunkSize > 0
  {
    if index >= s.cfg.geo.pieces || begin >= s.cfg.geo.PieceLength(index) then Done(s)
    else
      var r := s.cfg.geo.FromRequest(G.Request(index, begin, 0));
      if r !in s.book.peers[p].expected then Done(s) else TakeExpected(s, p, r, now)
  }

  /** A block that was expected: settled, and written unless its chunk is already there. */
  function TakeExpected(s: State, p: PeerId, r: Req, now: int): Outcome<State>
    requires p in s.book.peers
  {
    var (b1, _) :- TakeChunk(s.book, p, r);
    if HaveChunk(s, r) then Done(s.(book := b1)) else BeginWrite(s.(book := b1), p, r, now)
  }

  function BeginWrite(s: State, p: PeerId, r: Req, now: int): Outcome<State>
    requires p in s.book.peers
  {
    var i := s.cfg.grid.PieceOf(r);
    if r in s.book.owner && s.book.owner[r] == p then Panic
    else
      var b1 :- CancelRequest(With(s.book, p, s.book.peers[p].(lastUseful := now)), r);
      Done(s.(book := b1,
              pc := s.pc.(pendingWrites := s.pc.pendingWrites[i := Pending(s.pc, i) + 1],
                          dirty := s.pc.dirty + {r},
                          writing := s.pc.writing[p := r])))
  }

  /** Stops downloading: every connection cancels all it has outstanding. */
  function DisallowDownload(s: State, visits: Visits): Outcome<State>
    requires VisitsPeers(s.book, visits)
  {
    var b :- CancelEverywhere(s.book, visits);
    Done(s.(book := b, disallowed := true))
  }

  /** The write returned and the lock is held again; a failure the user does not handle stops downloading. */
  function EndWrite(s: State, p: PeerId, ok: bool, handled: bool, visits: Visits): Outcome<State>
    requires p in s.pc.writing && (!ok && !handled ==> VisitsPeers(s.book, visits))
  {
    var r := s.pc.writing[p];
    var i := s.cfg.grid.PieceOf(r);
    if Pending(s.pc, i) == 0 then Panic
    else
      var pc1 := s.pc.(pendingWrites := s.pc.pendingWrites[i := Pending(s.pc, i) - 1], writing := s.pc.writing - {p});
      if !ok then
        var s1 := s.(pc := pc1.(dirty := pc1.dirty - {r}));
        if handled then Done(s1) else DisallowDownload(s1, visits)
      else if s.cfg.grid.AllDirty(pc1.dirty, i) && Pending(pc1, i) == 0 then Done(QueueCheck(s.(pc := pc1), i))
      else Done(s.(pc := pc1))
  }

  // ---------- requesting ----------

  /** All of `shouldRequest`'s checks, each of which ends in a panic of `request`. */
  predicate MayRequest(s: State, p: PeerId, r: Req)
    requires p in s.book.peers
  {
    var c := s.book.peers[p];
    var i := s.cfg.grid.PieceOf(r);
    && s.cfg.grid.IsChunk(r)
    && r !in c.cancelled
    && i in c.has
    && c.active && !c.closed
    && i !in s.pc.hashing && i !in s.pc.queued
    && (c.choking && i !in c.allowedFast ==> r in c.requests)
  }

  /** `request`: the new book, and whether it refused for want of room. */
  function MakeRequest(s: State, p: PeerId, r: Req, limit: int): (o: Outcome<(Book, bool)>)
    requires p in s.book.peers
    ensures o.Done? ==> o.value.0.peers.Keys == s.book.peers.Keys
  {
    if !MayRequest(s, p, r) then Panic
    else if r in s.book.peers[p].requests then Done((s.book, false))
    else if |s.book.peers[p].requests| >= limit then Done((s.book, true))
    else Done((AddRequest(s.book, p, r), false))
  }

  /** What `getDesiredRequestState` collects from the requestable pieces it visits. */
  predicate Desired(s: State, p: PeerId, visited: set<nat>, r: Req)
    requires p in s.book.peers
  {
    var c := s.book.peers[p];
    var i := s.cfg.grid.PieceOf(r);
    && i in visited && i in c.has
    && s.cfg.grid.IsChunk(r) && r !in s.pc.dirty
    && (i in c.allowedFast || !c.choking || r in c.requests)
    && r !in c.cancelled
  }

  /** One popped request, the limit in force when it is made, and whether the write buffer has room after it. */
  datatype Pull = Pull(req: Req, limit: int, more: bool)

  function Load(b: Book, p: PeerId): nat {
    if p in b.peers then |b.peers[p].requests| else 0
  }

  /** "Don't steal from the poor." */
  predicate MaySteal(b: Book, p: PeerId, from: PeerId)
    requires p in b.peers && from in b.peers
  {
    var diff := Load(b, p) + 1 - (Load(b, from) - 1);
    !(diff > 1 || (diff == 1 && b.peers[p].lastUseful < b.peers[from].lastUseful))
  }

  function Outstanding(b: Book, p: PeerId): nat
    requires p in b.peers
  {
    |b.peers[p].requests| + |b.peers[p].cancelled|
  }

  /** One round of `applyRequestState`: the new book, and whether to go on. */
  function TryPull(s: State, p: PeerId, pull: Pull): (o: Outcome<(Book, bool)>)
    requires p in s.book.peers
    ensures o.Done? ==> o.value.0.peers.Keys == s.book.peers.Keys
  {
    var r := pull.req;
    var elsewhere := r in s.book.owner && s.book.owner[r] != p;
    if elsewhere && !MaySteal(s.book, p, s.book.owner[r]) then Done((s.book, true))
    else
      var b1 :- if elsewhere then CancelRequest(s.book, r) else Done(s.book);
      var (b2, refused) :- MakeRequest(s.(book := b1), p, r, pull.limit);
      Done((b2, !refused && pull.more))
  }

  /** The loop of `applyRequestState` over the requests in the order they leave the heap. */
  function ApplyPulls(s: State, p: PeerId, pulls: seq<Pull>, maxReq: int): Outcome<State>
    requires p in s.book.peers
    decreases |pulls|
  {
    if pulls == [] || Outstanding(s.book, p) >= maxReq then Done(s)
    else
      var (b, go) :- TryPull(s, p, pulls[0]);
      if go then ApplyPulls(s.(book := b), p, pulls[1..], maxReq) else Done(s.(book := b))
  }

  // ---------- events ----------

  /** Connection events and the wire messages that touch only the ledger. */
  datatype PeerEvent =
    | Joins(fast: bool, acks: bool, allowedFast: set<nat>)
    | Closes
    | Drops
    | Has(has: set<nat>)
    | Chokes
    | Unchokes
    | Rejects(r: Req)

  datatype Event =
    | OfPeer(p: PeerId, what: PeerEvent)
    | Receive(p: PeerId, index: nat, begin: nat, now: int)
    | WriteDone(p: PeerId, ok: bool, handled: bool, visits: Visits)
    | UpdateRequests(p: PeerId, visited: set<nat>, interestSent: bool, pulls: seq<Pull>, maxReq: int)
    | Verify(i: nat)
    | Passed(i: nat)
    | Marked(i: nat, complete: bool, okChanged: bool)
    | Failed(i: nat, complete: bool, okChanged: bool)
    | Completion(i: nat, complete: bool, okChanged: bool)
    | PiecePriority(i: nat, prio: nat)
    | FilePriority(k: nat, prio: nat)
    | Download(begin: nat, end: nat)
    | CancelRange(begin: nat, end: nat)
    | AddReader(id: nat)
    | ReaderMoved(id: nat, off: int, size: int)
    | RemoveReader(id: nat)
    | OtherHashers(others: nat)
    | StopDownload(visits: Visits)
    | AllowDownload
    | MergeSpec(disallow: bool)
    | CloseTorrent

  /** Events about what is wanted. */
  predicate AboutWants(e: Event) {
    || e.PiecePriority? || e.FilePriority? || e.Download? || e.CancelRange?
    || e.AddReader? || e.ReaderMoved? || e.RemoveReader?
  }

  /** Events about checking pieces and learning whether they are complete. */
  predicate AboutHashes(e: Event) {
    e.Verify? || e.Passed? || e.Marked? || e.Failed? || e.Completion?
  }

  datatype StepResult = Disabled | Crash | Next(state: State)

  function Lift(o: Outcome<State>): StepResult {
    match o
    case Panic => Crash
    case Done(s) => Next(s)
  }

  /** A peer whose read loop is waiting for a message: open, torrent open, no write of its own under way. */
  predicate Listening(s: State, p: PeerId) {
    p in s.book.peers && !s.book.peers[p].closed && !s.closed && p !in s.pc.writing
  }

  function SetPeer(s: State, p: PeerId, c: Peer): State {
    s.(book := With(s.book, p, c))
  }

  function PeerStep(s: State, p: PeerId, e: PeerEvent): StepResult {
    match e
    case Joins(fast, acks, allowed) =>
      if p in s.book.peers || p in s.pc.writing || s.closed || (acks && !fast) then Disabled
      else Next(SetPeer(s, p, Peer(fast, acks, allowed, true, false, true, {}, {}, {}, map[], 0)))
    case Closes =>
      if p !in s.book.peers then Disabled else Next(SetPeer(s, p, s.book.peers[p].(closed := true)))
    case Drops =>
      if p !in s.book.peers then Disabled
      else Next(SetPeer(s.(book := WithoutRequests(s.book, p)), p,
                        s.book.peers[p].(requests := {}, closed := true, active := false)))
    case Has(has) =>
      if !Listening(s, p) then Disabled else Next(SetPeer(s, p, s.book.peers[p].(has := has)))
    case Chokes =>
      if !Listening(s, p) then Disabled
      else if s.book.peers[p].choking then Next(s)
      else
        var b := if s.book.peers[p].fast then s.book else WithoutRequests(s.book, p);
        Next(SetPeer(s.(book := b), p, b.peers[p].(choking := true)))
    case Unchokes =>
      if !Listening(s, p) then Disabled else Next(SetPeer(s, p, s.book.peers[p].(choking := false)))
    case Rejects(r) =>
      if !Listening(s, p) then Disabled
      else (match RemoteRejected(s.book, p, r)
            case Panic => Crash
            case Done(b) => Next(s.(book := b.0)))
  }

  function HashStep(s: State, e: Event): StepResult
    requires AboutHashes(e)
  {
    match e
    case Verify(i) =>
      if i >= s.cfg.grid.pieces then Disabled else Next(QueueCheck(s, i))
    case Passed(i) =>
      if i !in s.pc.hashing then Disabled else Next(HashPassed(s, i))
    case Marked(i, complete, okChanged) =>
      if i !in s.pc.marking then Disabled else Next(MarkDone(s, i, complete, okChanged))
    case Failed(i, complete, okChanged) =>
      if i !in s.pc.hashing then Disabled else Next(HashFailed(s, i, complete, okChanged))
    case Completion(i, complete, okChanged) =>
      if i >= s.cfg.grid.pieces then Disabled else Next(UpdateCompletion(s, i, complete, okChanged))
  }

  function WantsStep(s: State, e: Event): StepResult
    requires AboutWants(e) && s.cfg.geo.pieceSize > 0 && WellSized(s.cfg, s.wants)
  {
    match e
    case PiecePriority(i, prio) =>
      if i >= s.cfg.grid.pieces then Disabled else Next(SetPiecePriority(s, i, prio))
    case FilePriority(k, prio) =>
      if k >= |s.cfg.lengths| then Disabled else Next(SetFilePriority(s, k, prio))
    case Download(begin, end) =>
      if end > s.cfg.grid.pieces then Disabled else Next(DownloadPieces(s, begin, end))
    case CancelRange(begin, end) =>
      if end > s.cfg.grid.pieces then Disabled else Next(CancelPieces(s, begin, end))
    case AddReader(id) =>
      if id in s.wants.readers then Disabled
      else Next(s.(wants := s.wants.(readers := s.wants.readers[id := (0, 0)])))
    case ReaderMoved(id, off, size) =>
      if id !in s.wants.readers then Disabled else Next(MoveReader(s, id, off, size))
    case RemoveReader(id) =>
      Next(DeleteReader(s, id))
  }

  function Step(s: State, e: Event): StepResult
    requires s.cfg.geo.pieceSize > 0 && s.cfg.geo.chunkSize > 0
    requires WellSized(s.cfg, s.wants)
  {
    if AboutHashes(e) then HashStep(s, e)
    else if AboutWants(e) then WantsStep(s, e)
    else match e
    case OfPeer(p, what) => PeerStep(s, p, what)
    case Receive(p, index, begin, now) =>
      if !Listening(s, p) then Disabled else Lift(ReceiveChunk(s, p, index, begin, now))
    case WriteDone(p, ok, handled, visits) =>
      if p !in s.pc.writing || (!ok && !handled && !VisitsActive(s.book, visits)) then Disabled
      else Lift(EndWrite(s, p, ok, handled, visits))
    case UpdateRequests(p, visited, interestSent, pulls, maxReq) =>
      if p !in s.book.peers || s.book.peers[p].closed || !(visited <= s.wants.pending)
         || ((s.closed || s.disallowed) && pulls != [])
         || !(forall k :: 0 <= k < |pulls| ==> Desired(s, p, visited, pulls[k].req)) then Disabled
      else if !interestSent then Next(s)
      else Lift(ApplyPulls(s, p, pulls, maxReq))
    case OtherHashers(others) =>
      if s.pc.active + others > s.cfg.cpus then Disabled else Next(s.(others := others))
    case StopDownload(visits) =>
      if !VisitsActive(s.book, visits) then Disabled else Lift(DisallowDownload(s, visits))
    case AllowDownload =>
      Next(s.(disallowed := false))
    case MergeSpec(disallow) =>
      Next(s.(disallowed := disallow))         // no request is cancelled here
    case CloseTorrent =>
      Next(s.(closed := true, book := AllClosed(s.book)))
  }
}

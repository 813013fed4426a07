/**
  The torrent object: its state updated in place by the code's loops and branches, proved to
  compute the scheduler's functions. Where the code would panic, the condition is asserted away.
*/
module Torrents {
  import opened Collections
  import opened Outcomes
  import opened Grids
  import L = Ledger
  import S = Scheduler
  import I = SchedulerInvariants
  import P = SchedulerPieces
  import Safe = SchedulerSafety
  import T = SchedulerTheorems
  import F = Files
  import G = Geometry
  import Bits = Bitmaps
  import Arith

  type PeerId = L.PeerId
  type Req = L.Req

  class Torrent {
    const cfg: S.Config
    var book: L.Book      // the peers' request states and the torrent's requestState
    var pc: S.Pieces      // dirtyChunks, pending writes, completion, queue, hashing and marking
    var wants: S.Wants    // priorities, readers and _pendingPieces
    var others: nat
    var closed: bool
    var disallowed: bool  // dataDownloadDisallowed

    ghost function View(): S.State
      reads this
    {
      S.State(cfg, book, pc, wants, others, closed, disallowed)
    }

    /** The torrent as it is when its info becomes known. */
    constructor (cfg: S.Config, others: nat)
      requires cfg.Valid() && others <= cfg.cpus
      ensures this.cfg == cfg && Safe.Init(View()) && !disallowed
    {
      this.cfg := cfg;
      book := L.Book(map[], map[]);
      pc := S.Pieces({}, map[], map[], {}, {}, {}, {}, 0);
      wants := S.Wants(seq(|cfg.lengths|, _ => S.PRIORITY_NONE), seq(cfg.grid.pieces, _ => S.PRIORITY_NONE),
                       map[], {}, {}, {});
      this.others, closed, disallowed := others, false, false;
    }

    // ---------- ledger ----------

    method DeleteRequest(p: PeerId, r: Req) returns (existed: bool)
      requires p in book.peers
      requires r in book.peers[p].requests ==> r in book.owner && book.owner[r] == p
      modifies this`book
      ensures L.DeleteRequest(old(book), p, r) == Done((book, existed))
    {
      var c := book.peers[p];
      if r !in c.requests {
        return false;
      }
      book := L.With(book, p, c.(requests := c.requests - {r}));
      assert r in book.owner && book.owner[r] == p;   // "only one peer should have a given request at a time"
      book := book.(owner := book.owner - {r});
      existed := true;
    }

    method Cancel(p: PeerId, r: Req)
      requires L.Sound(book) && p in book.peers && r in book.peers[p].requests
      modifies this`book
      ensures L.Sound(book) && L.Cancel(old(book), p, r) == Done(book)
    {
      L.CancelSafe(book, p, r);
      var existed := DeleteRequest(p, r);
      assert existed;                                  // "request not existing should have been guarded"
      var c := book.peers[p];
      if c.acks {
        assert r !in c.cancelled;                      // "request already cancelled"
        book := L.With(book, p, c.(cancelled := c.cancelled + {r}));
      }
    }

    method CancelRequest(r: Req)
      requires L.Sound(book)
      modifies this`book
      ensures L.Sound(book) && L.CancelRequest(old(book), r) == Done(book)
    {
      L.CancelRequestSafe(book, r);
      if r in book.owner {
        Cancel(book.owner[r], r);
      }
      assert r !in book.owner;                         // "expected request state to be gone"
    }

    method DecExpectedChunkReceive(p: PeerId, r: Req)
      requires p in book.peers && r in book.peers[p].expected && book.peers[p].expected[r] >= 1
      modifies this`book
      ensures L.DecExpected(old(book), p, r) == Done(book)
    {
      var c := book.peers[p];
      if c.expected[r] == 1 {
        book := L.With(book, p, c.(expected := c.expected - {r}));
      } else {
        book := L.With(book, p, c.(expected := c.expected[r := c.expected[r] - 1]));
      }
    }

    method RemoteRejectedRequest(p: PeerId, r: Req) returns (ok: bool)
      requires L.Sound(book) && p in book.peers
      modifies this`book
      ensures L.Sound(book) && L.RemoteRejected(old(book), p, r) == Done((book, ok))
    {
      L.RemoteRejectedSafe(book, p, r);
      L.SettleSafe(book, p, r);
      assert L.PeerOk(book.peers[p]);
      var existed := DeleteRequest(p, r);
      if !existed {
        var c := book.peers[p];
        if r !in c.cancelled {
          return false;
        }
        book := L.With(book, p, c.(cancelled := c.cancelled - {r}));
      }
      DecExpectedChunkReceive(p, r);
      ok := true;
    }

    /** Deletes a snapshot of the peer's requests one by one. */
    method DeleteAllRequests(p: PeerId)
      requires L.Sound(book) && p in book.peers
      modifies this`book
      ensures L.Sound(book) && book == L.WithoutRequests(old(book), p)
    {
      ghost var b0 := book;
      var snapshot := book.peers[p].requests;
      LeftNothing(b0, p);
      while snapshot != {}
        invariant snapshot <= b0.peers[p].requests && book == Left(b0, p, snapshot)
        decreases snapshot
      {
        var x :| x in snapshot;
        LeftOneLess(b0, p, snapshot, x);
        var existed := DeleteRequest(p, x);
        assert existed;                                // "request should exist"
        snapshot := snapshot - {x};
      }
      L.WithoutRequestsSafe(b0, p);
      LeftAll(b0, p);
    }

    method CancelRequestsForPiece(i: nat)
      requires L.Sound(book)
      modifies this`book
      ensures L.Sound(book) && book == L.WithoutChunks(old(book), cfg.grid.ChunksOf(i))
    {
      CancelRun(cfg.grid.First(i), cfg.grid.NumChunks(i));
    }

    method CancelRun(start: nat, count: nat)
      requires L.Sound(book)
      modifies this`book
      ensures L.Sound(book) && book == L.WithoutChunks(old(book), Interval(start, count))
    {
      hide L.Sound, L.CancelRequest, L.WithoutChunks;
      ghost var b0 := book;
      L.NothingCancelled(b0);
      for k := 0 to count
        invariant L.Sound(book) && book == L.WithoutChunks(b0, Interval(start, k))
      {
        L.CancelOneMore(b0, Interval(start, k), start + k);
        CancelRequest(start + k);
      }
    }

    /** `request`, for a chunk nobody else holds. Returns whether it refused for want of room. */
    method Request(p: PeerId, r: Req, limit: int) returns (refused: bool)
      requires Safe.Grantable(View(), p, r)
      modifies this`book
      ensures S.MakeRequest(old(View()), p, r, limit) == Done((book, refused))
    {
      assert S.MayRequest(View(), p, r);               // none of the panics of `shouldRequest`
      var c := book.peers[p];
      if r in c.requests {
        return false;
      }
      if |c.requests| >= limit {
        return true;
      }
      var count := if r in c.expected then c.expected[r] else 0;
      book := L.Book(book.peers[p := c.(requests := c.requests + {r}, expected := c.expected[r := count + 1])],
                     book.owner[r := p]);
      refused := false;
    }

    /** The undirtied chunks of one piece the peer has: which to ask for, and whether that takes interest. */
    method DesiredInPiece(p: PeerId, i: nat, bits: seq<nat>) returns (reqs: seq<Req>, interested: bool)
      requires cfg.Valid() && p in book.peers && i < cfg.grid.pieces && i in book.peers[p].has
      requires DirtyBits(View(), bits)
      ensures forall r :: r in reqs <==> S.Desired(View(), p, {i}, r)
      ensures interested <==> exists r :: Offered(View(), p, {i}, r) && i !in book.peers[p].allowedFast
    {
      IndicesFit(cfg);
      hide S.Config.Valid, RawGrid.IsChunk, RawGrid.PieceOf;
      var chunks := UndirtiedInPiece(cfg.grid, i, bits);
      reqs, interested := Askable(book.peers[p], i, chunks);
      assert chunks != [] ==> Offered(View(), p, {i}, chunks[0]);
      assert forall r :: Offered(View(), p, {i}, r) ==> r in chunks;
    }

    /** What to ask a peer for, from the wanted pieces the request strategy visits: nothing if the torrent is closed or stopped. */
    method GetDesiredRequestState(p: PeerId, visited: seq<nat>, bits: seq<nat>) returns (reqs: seq<Req>, interested: bool)
      requires cfg.Valid() && p in book.peers && (forall n :: 0 <= n < |visited| ==> visited[n] < cfg.grid.pieces)
      requires DirtyBits(View(), bits)
      ensures closed || disallowed ==> reqs == [] && !interested
      ensures !closed && !disallowed ==>
                && (forall r :: r in reqs <==> S.Desired(View(), p, Elements(visited), r))
                && (interested <==> exists r :: Offered(View(), p, Elements(visited), r)
                                                && cfg.grid.PieceOf(r) !in book.peers[p].allowedFast)
    {
      if closed || disallowed {
        return [], false;
      }
      reqs, interested := DesiredInPieces(p, visited, bits);
    }

    method DesiredInPieces(p: PeerId, visited: seq<nat>, bits: seq<nat>) returns (reqs: seq<Req>, interested: bool)
      requires cfg.Valid() && p in book.peers && (forall n :: 0 <= n < |visited| ==> visited[n] < cfg.grid.pieces)
      requires DirtyBits(View(), bits)
      ensures forall r :: r in reqs <==> S.Desired(View(), p, Elements(visited), r)
      ensures interested <==> exists r :: Offered(View(), p, Elements(visited), r)
                                          && cfg.grid.PieceOf(r) !in book.peers[p].allowedFast
    {
      reqs, interested := [], false;
      for n := 0 to |visited|
        invariant forall r :: r in reqs <==> S.Desired(View(), p, Elements(visited[..n]), r)
        invariant interested <==> exists r :: Offered(View(), p, Elements(visited[..n]), r)
                                              && cfg.grid.PieceOf(r) !in book.peers[p].allowedFast
      {
        var i := visited[n];
        ghost var before, after := Elements(visited[..n]), Elements(visited[..n + 1]);
        assert after == before + {i};
        if i in book.peers[p].has {
          var more, interest := DesiredInPiece(p, i, bits);
          reqs, interested := reqs + more, interested || interest;
          assert forall r :: Offered(View(), p, after, r) <==> Offered(View(), p, before, r) || Offered(View(), p, {i}, r);
        } else {
          assert forall r :: Offered(View(), p, after, r) <==> Offered(View(), p, before, r);
        }
      }
      assert visited[..|visited|] == visited;
    }

    /** One round: leave the chunk where it is, take it from its holder, or ask for it afresh. */
    method TryPull(p: PeerId, pull: S.Pull) returns (go: bool)
      requires L.Sound(book) && p in book.peers && Safe.Grantable(View(), p, pull.req)
      modifies this`book
      ensures S.TryPull(old(View()), p, pull) == Done((book, go))
    {
      hide L.Sound, L.CancelRequest, Safe.Grantable, S.MakeRequest;
      var r := pull.req;
      ghost var s0 := View();
      if r in book.owner && book.owner[r] != p {
        var existing := book.owner[r];
        var diff := |book.peers[p].requests| + 1 - (|book.peers[existing].requests| - 1);
        if diff > 1 || (diff == 1 && book.peers[p].lastUseful < book.peers[existing].lastUseful) {
          return true;
        }
        Safe.StillGrantable(s0, p, r);
        CancelRequest(r);
      }
      var refused := Request(p, r, pull.limit);
      go := !refused && pull.more;
    }

    /** The loop over the heap: until nothing is left, the pipeline is full or the writer is. */
    method ApplyRequestState(p: PeerId, pulls: seq<S.Pull>, maxReq: int)
      requires I.Core(View()) && p in book.peers
      requires forall k :: 0 <= k < |pulls| ==> Safe.Grantable(View(), p, pulls[k].req)
      modifies this`book
      ensures S.ApplyPulls(old(View()), p, pulls, maxReq) == Done(View())
    {
      hide I.Core, Safe.Grantable, S.TryPull;
      ghost var s0 := View();
      var k := 0;
      assert pulls[0..] == pulls;
      var go := true;
      while go && k < |pulls| && |book.peers[p].requests| + |book.peers[p].cancelled| < maxReq
        invariant k <= |pulls| && p in book.peers && I.Core(View())
        invariant go ==> forall j :: k <= j < |pulls| ==> Safe.Grantable(View(), p, pulls[j].req)
        invariant S.ApplyPulls(s0, p, pulls, maxReq)
               == if go then S.ApplyPulls(View(), p, pulls[k..], maxReq) else Done(View())
        decreases |pulls| - k
      {
        assert Safe.Grantable(View(), p, pulls[k].req);
        RoundUnfolds(View(), p, pulls, k, maxReq);
        go := TryPull(p, pulls[k]);
        k := k + 1;
      }
    }

    /** One update of a peer's requests, the desired ones leaving the heap in the order of `pulls`. */
    method UpdateRequests(p: PeerId, visited: set<nat>, interestSent: bool, pulls: seq<S.Pull>, maxReq: int)
      requires I.Inv(View()) && p in book.peers && !book.peers[p].closed && visited <= wants.pending
      requires (closed || disallowed ==> pulls == []) && forall k :: 0 <= k < |pulls| ==> S.Desired(View(), p, visited, pulls[k].req)
      modifies this`book
      ensures I.Inv(View())
      ensures S.Step(old(View()), S.UpdateRequests(p, visited, interestSent, pulls, maxReq)) == S.Next(View())
    {
      hide S.ApplyPulls, S.Desired, I.HashersCounted, I.CacheExactBut, I.NoneStuck;
      Safe.StepKeeps(View(), S.UpdateRequests(p, visited, interestSent, pulls, maxReq));
      if interestSent {
        forall k | 0 <= k < |pulls| ensures Safe.Grantable(View(), p, pulls[k].req) {
          Safe.DesiredIsGrantable(View(), p, visited, pulls[k].req);
        }
        ApplyRequestState(p, pulls, maxReq);
      }
    }

    // ---------- messages and connections ----------

    method Choked(p: PeerId)
      requires I.Inv(View()) && S.Listening(View(), p)
      modifies this`book
      ensures I.Inv(View()) && S.Step(old(View()), S.OfPeer(p, S.Chokes)) == S.Next(View())
    {
      hide I.HashersCounted, I.CacheExactBut, I.NoneStuck;
      Safe.StepKeeps(View(), S.OfPeer(p, S.Chokes));
      if book.peers[p].choking {
        return;
      }
      if !book.peers[p].fast {
        DeleteAllRequests(p);
      }
      book := L.With(book, p, book.peers[p].(choking := true));
    }

    /** Not `ok`, a reject of something neither outstanding nor cancelled, ends the connection. */
    method Rejected(p: PeerId, r: Req) returns (ok: bool)
      requires I.Inv(View()) && S.Listening(View(), p)
      modifies this`book
      ensures I.Inv(View()) && S.Step(old(View()), S.OfPeer(p, S.Rejects(r))) == S.Next(View())
      ensures ok <==> r in old(book.peers[p].requests) || r in old(book.peers[p].cancelled)
    {
      RejectStep(View(), p, r);
      hide I.Inv, L.RemoteRejected, L.Sound, S.Step, S.Listening;
      ok := RemoteRejectedRequest(p, r);
    }

    method DropConnection(p: PeerId)
      requires I.Inv(View()) && p in book.peers
      modifies this`book
      ensures I.Inv(View()) && S.Step(old(View()), S.OfPeer(p, S.Drops)) == S.Next(View())
    {
      Safe.StepKeeps(View(), S.OfPeer(p, S.Drops));
      Safe.Basics(View());
      hide I.Inv, L.Sound;
      DeleteAllRequests(p);
      book := L.With(book, p, book.peers[p].(closed := true, active := false));
    }

    // ---------- priorities ----------

    method PurePriority(i: nat) returns (ret: nat)
      requires cfg.Valid() && S.WellSized(cfg, wants) && i < cfg.grid.pieces
      ensures ret == S.PurePriority(cfg, wants, i)
    {
      var (first, end) := F.PieceFiles(cfg.geo, cfg.lengths, i);
      F.SliceIs(cfg.geo, cfg.lengths, i);
      ret := S.PRIORITY_NONE;
      for k := first to end
        invariant ret == S.MaxOf(wants.filePrio[first..k])
      {
        MaxOfNext(wants.filePrio, first, k);
        if wants.filePrio[k] > ret {
          ret := wants.filePrio[k];
        }
      }
      if i in wants.now {
        ret := S.Max(ret, S.PRIORITY_NOW);
      }
      if i in wants.readahead {
        ret := S.Max(ret, S.PRIORITY_READAHEAD);
      }
      ret := S.Max(ret, wants.piecePrio[i]);
    }

    method UpdatePiecePriority(i: nat)
      requires cfg.Valid() && S.WellSized(cfg, wants) && i < cfg.grid.pieces
      modifies this`wants
      ensures View() == S.Reprioritize(old(View()), i)
    {
      var prio := S.PRIORITY_NONE;
      if !S.Busy(pc, i) {
        prio := PurePriority(i);
      }
      if prio == S.PRIORITY_NONE {
        wants := wants.(pending := wants.pending - {i});
      } else {
        wants := wants.(pending := wants.pending + {i});
      }
    }

    method UpdatePiecePriorities(begin: nat, end: nat)
      requires cfg.Valid() && S.WellSized(cfg, wants) && end <= cfg.grid.pieces
      modifies this`wants
      ensures View() == S.ReprioritizeRange(old(View()), begin, end)
    {
      ghost var s0 := View();
      EmptyRange(s0, begin, begin);
      if begin >= end {
        EmptyRange(s0, begin, end);
        return;
      }
      for i := begin to end
        invariant View() == S.ReprioritizeRange(s0, begin, i)
      {
        RangeOneMore(s0, begin, i);
        UpdatePiecePriority(i);
      }
    }

    /** Recomputes both reader bitmaps from all readers' windows. */
    method UpdateReaderPieces()
      requires forall id :: id in wants.readers ==> wants.readers[id].1 <= cfg.grid.pieces
      modifies this`wants
      ensures View() == S.UpdateReaderPieces(old(View()))
    {
      var now, readahead := ReaderPieces(wants.readers);
      assert now == S.NowPieces(cfg.grid.pieces, wants.readers);
      assert readahead == S.AheadPieces(cfg.grid.pieces, wants.readers);
      wants := wants.(now := now, readahead := readahead);
    }

    /** A reader's position or readahead changed: its new window is the pieces of the given bytes. */
    method ReaderPosChanged(id: nat, off: int, size: int)
      requires I.Inv(View()) && id in wants.readers
      modifies this`wants
      ensures I.Inv(View()) && S.Step(old(View()), S.ReaderMoved(id, off, size)) == S.Next(View())
    {
      Safe.StepKeeps(View(), S.ReaderMoved(id, off, size));
      var to := F.ByteRegionPieces(cfg.geo, off, size);
      F.WindowIsExact(cfg.geo, off, size, 0);
      MoveWindow(id, to);
    }

    method MoveWindow(id: nat, to: (nat, nat))
      requires cfg.Valid() && S.WellSized(cfg, wants) && id in wants.readers && to.1 <= cfg.grid.pieces
      requires forall k :: k in wants.readers ==> wants.readers[k].1 <= cfg.grid.pieces
      modifies this`wants
      ensures View() == S.MoveWindow(old(View()), id, to)
    {
      var from := wants.readers[id];
      wants := wants.(readers := wants.readers[id := to]);
      if to == from {
        return;
      }
      UpdateReaderPieces();
      var l, h := from, to;
      if l.0 > h.0 {
        l, h := h, l;
      }
      if l.1 < h.0 {
        UpdatePiecePriorities(l.0, l.1);
        UpdatePiecePriorities(h.0, h.1);
      } else {
        var end := l.1;
        if h.1 > end {
          end := h.1;
        }
        UpdatePiecePriorities(l.0, end);
      }
    }

    method DeleteReader(id: nat)
      requires I.Inv(View())
      modifies this`wants
      ensures I.Inv(View()) && S.Step(old(View()), S.RemoveReader(id)) == S.Next(View())
    {
      Safe.StepKeeps(View(), S.RemoveReader(id));
      Safe.Basics(View());
      hide S.DeleteReader, I.Inv;
      ForgetReader(id);
    }

    method ForgetReader(id: nat)
      requires cfg.Valid() && S.WellSized(cfg, wants)
      requires forall k :: k in wants.readers ==> wants.readers[k].1 <= cfg.grid.pieces
      modifies this`wants
      ensures View() == S.DeleteReader(old(View()), id)
    {
      wants := wants.(readers := wants.readers - {id});
      UpdateReaderPieces();
      UpdatePiecePriorities(0, cfg.grid.pieces);
    }

    method SetPiecePriority(i: nat, prio: nat)
      requires I.Inv(View()) && i < cfg.grid.pieces
      modifies this`wants
      ensures I.Inv(View()) && S.Step(old(View()), S.PiecePriority(i, prio)) == S.Next(View())
    {
      hide I.HashersCounted, I.CacheExactBut, I.NoneStuck, S.Reprioritize;
      Safe.StepKeeps(View(), S.PiecePriority(i, prio));
      wants := wants.(piecePrio := wants.piecePrio[i := prio]);
      UpdatePiecePriority(i);
    }

    method SetFilePriority(k: nat, prio: nat)
      requires I.Inv(View()) && k < |cfg.lengths|
      modifies this`wants
      ensures I.Inv(View()) && S.Step(old(View()), S.FilePriority(k, prio)) == S.Next(View())
    {
      hide S.SetFilePriority, I.HashersCounted, I.CacheExactBut, I.NoneStuck;
      Safe.StepKeeps(View(), S.FilePriority(k, prio));
      ChangeFilePriority(k, prio);
    }

    method ChangeFilePriority(k: nat, prio: nat)
      requires cfg.Valid() && S.WellSized(cfg, wants) && k < |cfg.lengths|
      modifies this`wants
      ensures View() == S.SetFilePriority(old(View()), k, prio)
    {
      if wants.filePrio[k] != prio {
        F.RangeInside(cfg.geo, cfg.lengths, k);
        wants := wants.(filePrio := wants.filePrio[k := prio]);
        UpdatePiecePriorities(F.BeginPiece(cfg.geo, cfg.lengths, k), F.EndPiece(cfg.geo, cfg.lengths, k));
      }
    }

    method DownloadPieces(begin: nat, end: nat)
      requires I.Inv(View()) && end <= cfg.grid.pieces
      modifies this`wants
      ensures I.Inv(View()) && S.Step(old(View()), S.Download(begin, end)) == S.Next(View())
    {
      hide S.DownloadPieces, I.HashersCounted, I.CacheExactBut, I.NoneStuck;
      Safe.StepKeeps(View(), S.Download(begin, end));
      RaisePriorities(begin, end);
    }

    /** Raises priorities to Normal, re-evaluating only the pieces whose priority changes. */
    method RaisePriorities(begin: nat, end: nat)
      requires I.Inv(View()) && end <= cfg.grid.pieces
      modifies this`wants
      ensures View() == S.DownloadPieces(old(View()), begin, end)
    {
      ghost var s0 := View();
      assert cfg.Valid();
      hide I.Inv, S.DownloadPieces, S.SetPiecePriority;
      RaiseNone(s0, begin, begin);
      if begin >= end {
        RaiseNone(s0, begin, end);
        return;
      }
      for i := begin to end
        invariant View() == S.DownloadPieces(s0, begin, i)
      {
        RaiseOneMore(s0, begin, i);
        RaisePriority(i);
      }
    }

    method RaisePriority(i: nat)
      requires cfg.Valid() && S.WellSized(cfg, wants) && i < cfg.grid.pieces
      modifies this`wants
      ensures View() == if old(wants.piecePrio[i]) < S.PRIORITY_NORMAL
                        then S.SetPiecePriority(old(View()), i, S.PRIORITY_NORMAL) else old(View())
    {
      if wants.piecePrio[i] < S.PRIORITY_NORMAL {
        wants := wants.(piecePrio := wants.piecePrio[i := S.PRIORITY_NORMAL]);
        UpdatePiecePriority(i);
      }
    }

    method CancelPieces(begin: nat, end: nat)
      requires I.Inv(View()) && end <= cfg.grid.pieces
      modifies this`wants
      ensures I.Inv(View()) && S.Step(old(View()), S.CancelRange(begin, end)) == S.Next(View())
    {
      hide S.CancelPieces, I.HashersCounted, I.CacheExactBut, I.NoneStuck;
      Safe.StepKeeps(View(), S.CancelRange(begin, end));
      LowerPriorities(begin, end);
    }

    method LowerPriorities(begin: nat, end: nat)
      requires I.Inv(View()) && end <= cfg.grid.pieces
      modifies this`wants
      ensures View() == S.CancelPieces(old(View()), begin, end)
    {
      ghost var s0 := View();
      assert cfg.Valid();
      hide I.Inv, S.CancelPieces, S.SetPiecePriority;
      LowerNone(s0, begin, begin);
      if begin >= end {
        LowerNone(s0, begin, end);
        return;
      }
      for i := begin to end
        invariant View() == S.CancelPieces(s0, begin, i)
      {
        LowerOneMore(s0, begin, i);
        LowerPriority(i);
      }
    }

    method LowerPriority(i: nat)
      requires cfg.Valid() && S.WellSized(cfg, wants) && i < cfg.grid.pieces
      modifies this`wants
      ensures View() == if old(wants.piecePrio[i]) != S.PRIORITY_NONE
                        then S.SetPiecePriority(old(View()), i, S.PRIORITY_NONE) else old(View())
    {
      if wants.piecePrio[i] != S.PRIORITY_NONE {
        wants := wants.(piecePrio := wants.piecePrio[i := S.PRIORITY_NONE]);
        UpdatePiecePriority(i);
      }
    }

    // ---------- hashing ----------

    /** The first queued piece that is neither hashing nor marking. */
    method GetPieceToHash() returns (ret: Option<nat>)
      ensures ret == S.PieceToHash(pc, 0, cfg.grid.pieces)
      ensures ret.Some? ==> ret.value < cfg.grid.pieces && MayHash(pc, ret.value)
      ensures forall j: nat :: j < (if ret.Some? then ret.value else cfg.grid.pieces) ==> !MayHash(pc, j)
    {
      var i := 0;
      while i < cfg.grid.pieces
        invariant i <= cfg.grid.pieces && forall j: nat :: j < i ==> !MayHash(pc, j)
        invariant S.PieceToHash(pc, 0, cfg.grid.pieces) == S.PieceToHash(pc, i, cfg.grid.pieces)
      {
        if i in pc.queued && i !in pc.hashing && i !in pc.marking {
          return Some(i);
        }
        i := i + 1;
      }
      ret := None;
    }

    method TryCreatePieceHasher() returns (created: bool)
      requires cfg.Valid() && S.WellSized(cfg, wants) && !closed && pc.active < cfg.maxHashers
      modifies this`pc, this`wants
      ensures created == S.NextHash(old(View())).Some?
      ensures View() == if created then S.StartHashing(old(View()), S.NextHash(old(View())).value) else old(View())
    {
      if pc.active + others >= cfg.cpus {
        return false;
      }
      var found := GetPieceToHash();
      if found.None? {
        return false;
      }
      var i := found.value;
      pc := pc.(queued := pc.queued - {i}, hashing := pc.hashing + {i});
      UpdatePiecePriority(i);
      pc := pc.(active := pc.active + 1);
      created := true;
    }

    method TryCreateMorePieceHashers()
      requires cfg.Valid() && S.WellSized(cfg, wants)
      modifies this`pc, this`wants
      ensures View() == S.FillHashers(old(View())) && S.WellSized(cfg, wants)
    {
      var more := true;
      while more && !closed && pc.active < cfg.maxHashers
        invariant S.WellSized(cfg, wants)
        invariant S.FillHashers(View()) == S.FillHashers(old(View()))
        invariant !more ==> S.NextHash(View()).None?
        decreases more, |pc.queued|
      {
        more := TryCreatePieceHasher();
      }
    }

    method QueuePieceCheck(i: nat)
      requires cfg.Valid() && S.WellSized(cfg, wants) && i < cfg.grid.pieces
      modifies this`pc, this`wants
      ensures View() == S.QueueCheck(old(View()), i)
    {
      if i in pc.queued {
        return;
      }
      pc := pc.(queued := pc.queued + {i});
      UpdatePiecePriority(i);
      TryCreateMorePieceHashers();
    }

    method FinishHash(i: nat)
      requires cfg.Valid() && S.WellSized(cfg, wants) && i < cfg.grid.pieces
      modifies this`pc, this`wants
      ensures View() == S.FinishHash(old(View()), i)
    {
      UpdatePiecePriority(i);
      pc := pc.(active := pc.active - 1);
      TryCreateMorePieceHashers();
    }

    method UpdatePieceCompletion(i: nat, isComplete: bool, okChanged: bool)
      requires I.Core(View()) && i < cfg.grid.pieces
      modifies this`pc, this`wants, this`book
      ensures View() == S.UpdateCompletion(old(View()), i, isComplete, okChanged)
    {
      var changed := isComplete != (i in pc.complete) || okChanged;
      pc := pc.(complete := if isComplete then pc.complete + {i} else pc.complete - {i});
      if changed {
        if isComplete {
          pc := pc.(dirty := S.PendAll(cfg.grid, pc.dirty, i));
          CancelRequestsForPiece(i);
        } else if cfg.grid.AllDirty(pc.dirty, i) {
          pc := pc.(dirty := S.PendAll(cfg.grid, pc.dirty, i));
        }
        UpdatePiecePriority(i);
      }
    }

    /** The hash matched: mark, with the lock dropped, unless the torrent is closed. */
    method PieceHashedCorrectly(i: nat)
      requires I.Inv(View()) && i in pc.hashing
      modifies this`pc, this`wants
      ensures I.Inv(View()) && S.Step(old(View()), S.Passed(i)) == S.Next(View())
    {
      Safe.StepKeeps(View(), S.Passed(i));
      pc := pc.(hashing := pc.hashing - {i});
      if closed {
        FinishHash(i);
      } else {
        pc := pc.(marking := pc.marking + {i});
      }
    }

    /** Storage has been told; the lock is held again. */
    method PieceMarked(i: nat, isComplete: bool, okChanged: bool)
      requires I.Inv(View()) && i in pc.marking
      modifies this`pc, this`wants, this`book
      ensures I.Inv(View()) && S.Step(old(View()), S.Marked(i, isComplete, okChanged)) == S.Next(View())
    {
      hide S.MarkDone, I.HashersCounted, I.CacheExactBut, I.NoneStuck;
      Safe.StepKeeps(View(), S.Marked(i, isComplete, okChanged));
      MarkDone(i, isComplete, okChanged);
    }

    method MarkDone(i: nat, isComplete: bool, okChanged: bool)
      requires I.Core(View()) && i < cfg.grid.pieces
      modifies this`pc, this`wants, this`book
      ensures View() == S.MarkDone(old(View()), i, isComplete, okChanged)
    {
      if !closed {
        P.PendAllKeeps(View(), i);
        pc := pc.(dirty := S.PendAll(cfg.grid, pc.dirty, i));
        P.UpdateCompletionCore(View(), i, isComplete, okChanged);
        UpdatePieceCompletion(i, isComplete, okChanged);
      }
      assert cfg.Valid() && S.WellSized(cfg, wants);
      hide *;
      pc := pc.(marking := pc.marking - {i});
      FinishHash(i);
    }

    /** The hash did not match: nothing is dropped in between. */
    method PieceHashedWrongly(i: nat, isComplete: bool, okChanged: bool)
      requires I.Inv(View()) && i in pc.hashing
      modifies this`pc, this`wants, this`book
      ensures I.Inv(View()) && S.Step(old(View()), S.Failed(i, isComplete, okChanged)) == S.Next(View())
    {
      hide S.HashFailed, I.HashersCounted, I.CacheExactBut, I.NoneStuck;
      Safe.StepKeeps(View(), S.Failed(i, isComplete, okChanged));
      HashFailed(i, isComplete, okChanged);
    }

    method HashFailed(i: nat, isComplete: bool, okChanged: bool)
      requires I.Core(View()) && i < cfg.grid.pieces
      modifies this`pc, this`wants, this`book
      ensures View() == S.HashFailed(old(View()), i, isComplete, okChanged)
    {
      pc := pc.(hashing := pc.hashing - {i});
      if closed {
        FinishHash(i);
        return;
      }
      pc := pc.(marking := pc.marking + {i});
      P.OnIncompleteKeeps(View(), i);
      if cfg.grid.AllDirty(pc.dirty, i) {
        pc := pc.(dirty := S.PendAll(cfg.grid, pc.dirty, i));
      }
      P.UpdateCompletionCore(View(), i, isComplete, okChanged);
      UpdatePieceCompletion(i, isComplete, okChanged);
      pc := pc.(marking := pc.marking - {i});
      FinishHash(i);
    }

    // ---------- chunks ----------

    /** Up to the point where the lock is dropped to write the chunk; not `ok` ends the connection. */
    method ReceiveChunk(p: PeerId, index: nat, begin: nat, when: int) returns (ok: bool)
      requires I.Inv(View()) && S.Listening(View(), p)
      modifies this`pc, this`book
      ensures I.Inv(View()) && S.Step(old(View()), S.Receive(p, index, begin, when)) == S.Next(View())
      ensures ok <==> index < cfg.geo.pieces && begin < cfg.geo.PieceLength(index)
                      && cfg.geo.FromRequest(G.Request(index, begin, 0)) in old(book.peers[p].expected)
    {
      Safe.StepKeeps(View(), S.Receive(p, index, begin, when));
      if index >= cfg.geo.pieces || begin >= cfg.geo.PieceLength(index) {
        return false;
      }
      var r := cfg.geo.FromRequest(G.Request(index, begin, 0));
      if r !in book.peers[p].expected {
        return false;
      }
      hide I.Inv, S.TakeExpected;
      TakeExpected(p, r, when);
      ok := true;
    }

    method TakeExpected(p: PeerId, r: Req, when: int)
      requires L.Sound(book) && p in book.peers && r in book.peers[p].expected
      modifies this`pc, this`book
      ensures S.TakeExpected(old(View()), p, r, when) == Done(View())
    {
      hide L.Sound, L.TakeChunk, S.BeginWrite;
      L.TakeChunkSafe(book, p, r);
      var intended := SettleReceived(p, r);
      if cfg.grid.PieceOf(r) in pc.complete || r in pc.dirty {
        return;
      }
      WriteBegins(p, r, when);
    }

    method SettleReceived(p: PeerId, r: Req) returns (intended: bool)
      requires L.Sound(book) && p in book.peers && r in book.peers[p].expected
      modifies this`book
      ensures L.Sound(book) && L.TakeChunk(old(book), p, r) == Done((book, intended))
    {
      L.TakeChunkSafe(book, p, r);
      assert L.PeerOk(book.peers[p]);
      DecExpectedChunkReceive(p, r);
      intended := DeleteRequest(p, r);
      if !intended {
        var c := book.peers[p];
        if r in c.cancelled {
          book := L.With(book, p, c.(cancelled := c.cancelled - {r}));
          intended := true;
        }
      }
    }

    method WriteBegins(p: PeerId, r: Req, when: int)
      requires L.Sound(book) && p in book.peers && (r in book.owner ==> book.owner[r] != p)
      modifies this`pc, this`book
      ensures S.BeginWrite(old(View()), p, r, when) == Done(View())
    {
      hide L.CancelRequest, L.Sound;
      var i := cfg.grid.PieceOf(r);
      L.UsefulKeeps(book, p, when);
      book := L.With(book, p, book.peers[p].(lastUseful := when));
      pc := pc.(pendingWrites := pc.pendingWrites[i := S.Pending(pc, i) + 1], dirty := pc.dirty + {r});
      assert !(r in book.owner && book.owner[r] == p);   // "should not be pending request from conn that just received it"
      CancelRequest(r);
      pc := pc.(writing := pc.writing[p := r]);
    }

    /** The write returned and the lock is held again. */
    method WriteDone(p: PeerId, ok: bool, handled: bool, visits: L.Visits)
      requires I.Inv(View()) && p in pc.writing && (!ok && !handled ==> L.VisitsActive(book, visits))
      modifies this`pc, this`wants, this`book, this`disallowed
      ensures I.Inv(View()) && S.Step(old(View()), S.WriteDone(p, ok, handled, visits)) == S.Next(View())
    {
      Safe.StepKeeps(View(), S.WriteDone(p, ok, handled, visits));
      assert S.Pending(pc, cfg.grid.PieceOf(pc.writing[p])) != 0;
      hide I.Inv, S.EndWrite;
      EndWrite(p, ok, handled, visits);
    }

    method EndWrite(p: PeerId, ok: bool, handled: bool, visits: L.Visits)
      requires cfg.Valid() && S.WellSized(cfg, wants) && L.Sound(book)
      requires p in pc.writing && cfg.grid.IsChunk(pc.writing[p]) && S.Pending(pc, cfg.grid.PieceOf(pc.writing[p])) != 0
      requires !ok && !handled ==> L.VisitsActive(book, visits)
      modifies this`pc, this`wants, this`book, this`disallowed
      ensures S.EndWrite(old(View()), p, ok, handled, visits) == Done(View())
    {
      hide L.VisitsActive, L.Sound, S.DisallowDownload, S.QueueCheck;
      var r := pc.writing[p];
      var i := cfg.grid.PieceOf(r);
      assert S.Pending(pc, i) != 0;                      // "assertion" of decrementPendingWrites
      pc := pc.(pendingWrites := pc.pendingWrites[i := S.Pending(pc, i) - 1], writing := pc.writing - {p});
      if !ok {
        pc := pc.(dirty := pc.dirty - {r});
        if !handled {
          DisallowDataDownloadLocked(visits);
        }
      } else if cfg.grid.AllDirty(pc.dirty, i) && S.Pending(pc, i) == 0 {
        QueuePieceCheck(i);
      }
    }

    // ---------- stopping all downloading ----------

    /** Cancels a snapshot of the peer's requests one by one. */
    method CancelAllRequests(p: PeerId, snapshot: seq<Req>)
      requires L.Sound(book) && p in book.peers && L.IsSnapshot(book, (p, snapshot))
      modifies this`book
      ensures L.Sound(book) && L.CancelAllRequests(old(book), p, snapshot) == Done(book)
    {
      ghost var b0 := book;
      assert snapshot[0..] == snapshot;
      for k := 0 to |snapshot|
        invariant p in book.peers && L.Sound(book)
        invariant Elements(snapshot[k..]) <= book.peers[p].requests
        invariant L.CancelEach(b0, p, snapshot) == L.CancelEach(book, p, snapshot[k..])
      {
        CancelStep(book, p, snapshot, k);
        Cancel(p, snapshot[k]);
      }
      L.CancelAllRequestsSafe(b0, p, snapshot);
      assert book.peers[p].requests == {};               // the check of assertNoRequests
    }

    method DisallowDataDownloadLocked(visits: L.Visits)
      requires L.Sound(book) && L.VisitsActive(book, visits)
      modifies this`book, this`disallowed
      ensures L.Sound(book) && S.DisallowDownload(old(View()), visits) == Done(View())
    {
      ghost var b0 := book;
      disallowed := true;
      assert visits[0..] == visits;
      for k := 0 to |visits|
        invariant disallowed && L.Sound(book) && L.Snapshots(book, visits[k..])
        invariant L.CancelEverywhere(b0, visits) == L.CancelEverywhere(book, visits[k..])
      {
        ghost var rest := visits[k..];
        assert rest[1..] == visits[k + 1..] && L.IsSnapshot(book, rest[0]);
        L.SnapshotsLater(book, rest);
        L.CancelAllRequestsSafe(book, visits[k].0, visits[k].1);
        CancelAllRequests(visits[k].0, visits[k].1);
      }
      assert visits[|visits|..] == [];
    }

    method DisallowDataDownload(visits: L.Visits)
      requires I.Inv(View()) && L.VisitsActive(book, visits)
      modifies this`book, this`disallowed
      ensures I.Inv(View()) && S.Step(old(View()), S.StopDownload(visits)) == S.Next(View())
      ensures forall p :: p in book.peers ==> book.peers[p].requests == {}
    {
      hide L.VisitsActive, L.CancelEverywhere, I.HashersCounted, I.CacheExactBut, I.NoneStuck;
      Safe.DisallowKeeps(View(), visits);
      DisallowDataDownloadLocked(visits);
      T.NobodyAsks(book);
    }
  }

  lemma CancelStep(b: L.Book, p: PeerId, rs: seq<Req>, k: nat)
    requires L.Sound(b) && p in b.peers && NoDup(rs) && k < |rs| && Elements(rs[k..]) <= b.peers[p].requests
    ensures rs[k] in b.peers[p].requests && L.Cancel(b, p, rs[k]).Done?
    ensures var b1 := L.Cancel(b, p, rs[k]).value;
            L.CancelEach(b, p, rs[k..]) == L.CancelEach(b1, p, rs[k + 1..]) && Elements(rs[k + 1..]) <= b1.peers[p].requests
  {
    var rest := rs[k..];
    assert rest[0] == rs[k] && rest[1..] == rs[k + 1..] && NoDup(rest);
    L.SplitFirst(rest);
    L.CancelIs(b, p, rs[k]);
    L.OthersStay(b, p, rs[k], Elements(rs[k + 1..]));
  }

  lemma RejectStep(s: S.State, p: PeerId, r: Req)
    requires I.Inv(s) && S.Listening(s, p)
    ensures p in s.book.peers && L.Sound(s.book) && s.cfg.geo.Valid() && S.WellSized(s.cfg, s.wants)
    ensures L.RemoteRejected(s.book, p, r).Done?
    ensures var (b, ok) := L.RemoteRejected(s.book, p, r).value;
            && S.Step(s, S.OfPeer(p, S.Rejects(r))) == S.Next(s.(book := b)) && I.Inv(s.(book := b))
            && ok == (r in s.book.peers[p].requests || r in s.book.peers[p].cancelled)
  {
    Safe.Basics(s);
    Safe.StepKeeps(s, S.OfPeer(p, S.Rejects(r)));
    hide I.Inv, L.Sound, L.RemoteRejected;
    L.RemoteRejectedSafe(s.book, p, r);
  }

  ghost predicate MayHash(pc: S.Pieces, i: nat) {
    i in pc.queued && i !in pc.hashing && i !in pc.marking
  }

  /** `bits` is what iterating the dirty bitmap yields. */
  ghost predicate DirtyBits(s: S.State, bits: seq<nat>) {
    && Bits.Ascending(bits)
    && (forall r :: r in bits <==> r in s.pc.dirty)
    && I.ChunksExist(s.cfg.grid, s.pc, s.book)
  }

  /** A chunk still to be had, of a visited piece the peer has. */
  ghost predicate Offered(s: S.State, p: PeerId, visited: set<nat>, r: Req)
    requires p in s.book.peers
  {
    var i := s.cfg.grid.PieceOf(r);
    i in visited && i in s.book.peers[p].has && s.cfg.grid.IsChunk(r) && r !in s.pc.dirty
  }

  lemma IndicesFit(cfg: S.Config)
    requires cfg.Valid()
    ensures cfg.grid.pieces * cfg.grid.perPiece < Arith.TWO_32
  {
  }

  /** Which of the chunks the peer may be asked for, and whether any of them takes interest. */
  method Askable(c: L.Peer, i: nat, chunks: seq<Req>) returns (reqs: seq<Req>, interested: bool)
    ensures forall r :: r in reqs <==> && r in chunks && r !in c.cancelled
                                       && (i in c.allowedFast || !c.choking || r in c.requests)
    ensures interested <==> chunks != [] && i !in c.allowedFast
  {
    reqs, interested := [], false;
    for k := 0 to |chunks|
      invariant forall r :: r in reqs <==> && r in chunks[..k] && r !in c.cancelled
                                           && (i in c.allowedFast || !c.choking || r in c.requests)
      invariant interested <==> k > 0 && i !in c.allowedFast
    {
      var r := chunks[k];
      if i !in c.allowedFast {
        interested := true;
        if c.choking && r !in c.requests {
          continue;
        }
      }
      if r !in c.cancelled {
        reqs := reqs + [r];
      }
    }
  }

  /** The chunks of a piece that are not dirty, by iterating over the dirty bits. */
  method UndirtiedInPiece(g: Grid, i: nat, bits: seq<nat>) returns (chunks: seq<Req>)
    requires i < g.pieces && g.pieces * g.perPiece < Arith.TWO_32
    requires Bits.Ascending(bits) && forall k :: 0 <= k < |bits| ==> g.IsChunk(bits[k])
    ensures forall r :: r in chunks <==> g.IsChunk(r) && g.PieceOf(r) == i && r !in bits
  {
    hide RawGrid.IsChunk, RawGrid.PieceOf;
    RangeBelowTotal(g, i);
    forall k | 0 <= k < |bits| ensures bits[k] < Arith.TWO_32 {
      ChunkBelowTotal(g, bits[k]);
    }
    var start, end := g.First(i), g.First(i) + g.NumChunks(i);
    chunks := Bits.IterUnsetInRange(bits, start, end);
    Bits.ClearInMembers(Elements(bits), start, end);
    forall r: nat ensures r in g.ChunksOf(i) <==> g.IsChunk(r) && g.PieceOf(r) == i {
      InPiece(g, i, r);
    }
  }

  // ---------- loop states ----------

  /** The book when the requests of `p` still to be deleted are `rest`. */
  ghost function Left(b: L.Book, p: PeerId, rest: set<Req>): L.Book
    requires p in b.peers
  {
    L.Book(b.peers[p := b.peers[p].(requests := rest)],
           map r | r in b.owner && (b.owner[r] != p || r in rest) :: b.owner[r])
  }

  lemma LeftNothing(b: L.Book, p: PeerId)
    requires L.Sound(b) && p in b.peers
    ensures Left(b, p, b.peers[p].requests) == b
  {
    assert b.peers[p := b.peers[p].(requests := b.peers[p].requests)] == b.peers;
  }

  lemma LeftAll(b: L.Book, p: PeerId)
    requires p in b.peers
    ensures Left(b, p, {}) == L.WithoutRequests(b, p)
  {
  }

  lemma LeftOneLess(b: L.Book, p: PeerId, rest: set<Req>, x: Req)
    requires L.Sound(b) && p in b.peers && x in rest && rest <= b.peers[p].requests
    ensures L.DeleteRequest(Left(b, p, rest), p, x) == Done((Left(b, p, rest - {x}), true))
    ensures x in Left(b, p, rest).owner && Left(b, p, rest).owner[x] == p
  {
    var b0, b1 := Left(b, p, rest), Left(b, p, rest - {x});
    assert x in b.owner && b.owner[x] == p;
    L.UpdateTwice(b.peers, p, b0.peers[p], b1.peers[p]);
    assert b0.owner - {x} == b1.owner;
  }

  /** One round of the loop, against the rest of the recursion. */
  lemma RoundUnfolds(s: S.State, p: PeerId, pulls: seq<S.Pull>, k: nat, maxReq: int)
    requires I.Core(s) && k < |pulls| && p in s.book.peers && S.Outstanding(s.book, p) < maxReq
    requires forall j :: k <= j < |pulls| ==> Safe.Grantable(s, p, pulls[j].req)
    ensures L.Sound(s.book) && S.TryPull(s, p, pulls[k]).Done?
    ensures var (b, go) := S.TryPull(s, p, pulls[k]).value;
            var s1 := s.(book := b);
            && I.Core(s1)
            && (forall j :: k + 1 <= j < |pulls| ==> Safe.Grantable(s1, p, pulls[j].req))
            && S.ApplyPulls(s, p, pulls[k..], maxReq)
               == if go then S.ApplyPulls(s1, p, pulls[k + 1..], maxReq) else Done(s1)
  {
    assert Safe.Grantable(s, p, pulls[k].req);
    Safe.TryPullSafe(s, p, pulls[k]);
    var s1 := s.(book := S.TryPull(s, p, pulls[k]).value.0);
    forall j | k + 1 <= j < |pulls| ensures Safe.Grantable(s1, p, pulls[j].req) {
      assert Safe.Grantable(s, p, pulls[j].req);
    }
    assert pulls[k..][0] == pulls[k] && pulls[k..][1..] == pulls[k + 1..];
  }

  /** The pieces at the readers' positions, and those further on in their windows. */
  method ReaderPieces(readers: map<nat, (nat, nat)>) returns (now: set<nat>, readahead: set<nat>)
    ensures forall j :: (j in now <==> S.ReadNow(readers, j)) && (j in readahead <==> S.ReadAhead(readers, j))
  {
    now, readahead := {}, {};
    var left := readers.Keys;
    while left != {}
      invariant left <= readers.Keys
      invariant forall j :: (j in now <==> S.ReadNow(readers - left, j)) && (j in readahead <==> S.ReadAhead(readers - left, j))
      decreases |left|
    {
      var id :| id in left;
      var (begin, end) := readers[id];
      if end > begin {
        now := now + {begin};
        readahead := readahead + Span(begin + 1, end);
      }
      OneMoreReader(readers, left, id);
      left := left - {id};
    }
    assert readers - {} == readers;
  }

  lemma OneMoreReader(readers: map<nat, (nat, nat)>, left: set<nat>, id: nat)
    requires id in left && left <= readers.Keys
    ensures forall j :: S.ReadNow(readers - (left - {id}), j)
                        <==> S.ReadNow(readers - left, j) || readers[id].0 == j < readers[id].1
    ensures forall j :: S.ReadAhead(readers - (left - {id}), j)
                        <==> S.ReadAhead(readers - left, j) || readers[id].0 < j < readers[id].1
  {
    var before, after := readers - left, readers - (left - {id});
    assert after == before[id := readers[id]] && id !in before;
    forall j
      ensures S.ReadNow(after, j) <==> S.ReadNow(before, j) || readers[id].0 == j < readers[id].1
      ensures S.ReadAhead(after, j) <==> S.ReadAhead(before, j) || readers[id].0 < j < readers[id].1
    {
      assert forall k :: k in before ==> k in after && after[k] == before[k];
      assert id in after;
    }
  }

  lemma {:induction false} MaxOfSnoc(a: seq<nat>, x: nat)
    ensures S.MaxOf(a + [x]) == S.Max(S.MaxOf(a), x)
  {
    if a == [] {
      assert a + [x] == [x];
      assert S.MaxOf([x]) == S.Max(x, S.MaxOf([]));
    } else {
      assert (a + [x])[1..] == a[1..] + [x];
      MaxOfSnoc(a[1..], x);
    }
  }

  lemma MaxOfNext(prios: seq<nat>, first: nat, k: nat)
    requires first <= k < |prios|
    ensures S.MaxOf(prios[first..k + 1]) == S.Max(S.MaxOf(prios[first..k]), prios[k])
  {
    assert prios[first..k + 1] == prios[first..k] + [prios[k]];
    MaxOfSnoc(prios[first..k], prios[k]);
  }

  lemma EmptyRange(s: S.State, begin: nat, end: nat)
    requires begin >= end
    ensures S.ReprioritizeRange(s, begin, end) == s
  {
    assert S.ReprioritizeRange(s, begin, end).wants.pending == s.wants.pending;
  }

  lemma RangeOneMore(s: S.State, begin: nat, k: nat)
    requires begin <= k
    ensures S.Reprioritize(S.ReprioritizeRange(s, begin, k), k) == S.ReprioritizeRange(s, begin, k + 1)
  {
    var s1 := S.ReprioritizeRange(s, begin, k);
    I.WantedIgnoresPending(s, s1.wants.pending, k);
    assert S.Reprioritize(s1, k).wants.pending == S.ReprioritizeRange(s, begin, k + 1).wants.pending;
  }

  lemma MapNone(s: S.State, begin: nat, end: nat, f: nat -> nat)
    requires begin >= end
    ensures S.MapPiecePriorities(s, begin, end, f) == s
  {
    var prios := s.wants.piecePrio;
    var after := seq(|prios|, i requires 0 <= i < |prios| => if begin <= i < end then f(prios[i]) else prios[i]);
    assert after == prios;
    EmptyRange(s, begin, end);
  }

  /** A piece whose priority stays needs no re-evaluation, because the cache was exact. */
  lemma MapOneMore(s: S.State, begin: nat, k: nat, f: nat -> nat)
    requires I.Inv(s) && begin <= k < s.cfg.grid.pieces
    ensures var s1 := S.MapPiecePriorities(s, begin, k, f);
            && s1.wants.piecePrio[k] == s.wants.piecePrio[k] && S.WellSized(s1.cfg, s1.wants)
            && S.MapPiecePriorities(s, begin, k + 1, f) ==
               if f(s.wants.piecePrio[k]) == s.wants.piecePrio[k] then s1
               else S.SetPiecePriority(s1, k, f(s.wants.piecePrio[k]))
  {
    I.MapPiecePrioritiesKeeps(s, begin, k, f);
    I.MapPiecePrioritiesKeeps(s, begin, k + 1, f);
    var s1, s2 := S.MapPiecePriorities(s, begin, k, f), S.MapPiecePriorities(s, begin, k + 1, f);
    var x := f(s.wants.piecePrio[k]);
    I.SetPiecePriorityKeeps(s1, k, x);
    var s3 := if x == s.wants.piecePrio[k] then s1 else S.SetPiecePriority(s1, k, x);
    assert s2.wants.piecePrio == s3.wants.piecePrio;
    CacheDetermined(s2, s3);
  }

  lemma RaiseNone(s: S.State, begin: nat, end: nat)
    requires begin >= end
    ensures S.DownloadPieces(s, begin, end) == s
  {
    MapNone(s, begin, end, S.AtLeastNormal);
  }

  lemma RaiseOneMore(s: S.State, begin: nat, k: nat)
    requires I.Inv(s) && begin <= k < s.cfg.grid.pieces
    ensures var s1 := S.DownloadPieces(s, begin, k);
            && S.WellSized(s1.cfg, s1.wants)
            && S.DownloadPieces(s, begin, k + 1) ==
               if s1.wants.piecePrio[k] < S.PRIORITY_NORMAL then S.SetPiecePriority(s1, k, S.PRIORITY_NORMAL) else s1
  {
    hide S.MapPiecePriorities, S.SetPiecePriority, I.Inv;
    MapOneMore(s, begin, k, S.AtLeastNormal);
  }

  lemma LowerNone(s: S.State, begin: nat, end: nat)
    requires begin >= end
    ensures S.CancelPieces(s, begin, end) == s
  {
    MapNone(s, begin, end, S.NotWanted);
  }

  lemma LowerOneMore(s: S.State, begin: nat, k: nat)
    requires I.Inv(s) && begin <= k < s.cfg.grid.pieces
    ensures var s1 := S.CancelPieces(s, begin, k);
            && S.WellSized(s1.cfg, s1.wants)
            && S.CancelPieces(s, begin, k + 1) ==
               if s1.wants.piecePrio[k] != S.PRIORITY_NONE then S.SetPiecePriority(s1, k, S.PRIORITY_NONE) else s1
  {
    hide S.MapPiecePriorities, S.SetPiecePriority, I.Inv;
    MapOneMore(s, begin, k, S.NotWanted);
  }

  /** An exact cache is determined by the rest of the state. */
  lemma CacheDetermined(s: S.State, s1: S.State)
    requires I.CacheExactBut(s, {}) && I.CacheExactBut(s1, {})
    requires s1 == s.(wants := s.wants.(pending := s1.wants.pending))
    ensures s1 == s
  {
    forall j: nat ensures j in s1.wants.pending <==> j in s.wants.pending {
      I.WantedIgnoresPending(s, s1.wants.pending, j);
    }
    assert s1.wants.pending == s.wants.pending;
  }
}

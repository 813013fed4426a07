/** What each event does, in terms of the torrent before and after it and of nothing the step is computed with. */
module SchedulerEffects {
  import opened Outcomes
  import opened Ledger
  import opened Grids
  import opened Scheduler
  import opened SchedulerInvariants
  import opened SchedulerPieces
  import opened SchedulerSafety
  import opened SchedulerTheorems
  import F = Files
  import G = Geometry
  import Arith

  /** The entries of all peers but `p` are the same. */
  ghost predicate OtherPeersSame(b: Book, b1: Book, p: PeerId) {
    b1.peers.Keys - {p} == b.peers.Keys - {p} && forall q :: q in b.peers && q != p ==> q in b1.peers && b1.peers[q] == b.peers[q]
  }

  // ---------- asking and stealing ----------

  /** The holder has at least two more requests than the asker, or one more and was not useful more recently. */
  ghost predicate Yields(b: Book, p: PeerId, q: PeerId)
    requires p in b.peers && q in b.peers
  {
    var mine, theirs := |b.peers[p].requests|, |b.peers[q].requests|;
    theirs > mine + 1 || (theirs == mine + 1 && b.peers[p].lastUseful >= b.peers[q].lastUseful)
  }

  lemma StealTest(b: Book, p: PeerId, q: PeerId)
    requires p in b.peers && q in b.peers
    ensures MaySteal(b, p, q) <==> Yields(b, p, q)
  {
  }

  /** Chunk `r` now belongs to `p`; every other chunk to whom it did. */
  ghost predicate OnlyOwnerChanged(b: Book, b1: Book, r: Req) {
    forall x :: x != r ==> (x in b1.owner <==> x in b.owner) && (x in b.owner ==> b1.owner[x] == b.owner[x])
  }

  /** What one round makes of a chunk: the asker's when it was free, its own or yielded, and left alone otherwise. */
  ghost predicate Decided(b: Book, b1: Book, p: PeerId, r: Req, go: bool, more: bool)
    requires p in b.peers
  {
    && r in b1.owner && OnlyOwnerChanged(b, b1, r)
    && (b1.owner[r] == p <==> r !in b.owner || b.owner[r] == p || Yields(b, p, b.owner[r]))
    && (b1.owner[r] != p ==> b1 == b && go)
    && (b1.owner[r] == p ==> p in b1.peers && r in b1.peers[p].requests && go == more)
    && (b1.owner[r] == p && !(r in b.owner && b.owner[r] == p) ==> AskedAt(b.peers[p], b1.peers[p], r))
    && (forall q :: q in b.peers && q != p ==>
          q in b1.peers && b1.peers[q] == if b1.owner[r] == p then TakenFrom(b.peers[q], r) else b.peers[q])
  }

  /** The chunk has been requested once more, and is expected once more. */
  ghost predicate AskedAt(c: Peer, c1: Peer, r: Req) {
    && c1.requests == c.requests + {r}
    && c1.expected == c.expected[r := (if r in c.expected then c.expected[r] else 0) + 1]
    && c1 == c.(requests := c1.requests, expected := c1.expected)
  }

  /** A peer's entry once the chunk has been taken from it: a peer that answers cancels is to answer this one. */
  function TakenFrom(c: Peer, r: Req): Peer {
    if r !in c.requests then c
    else c.(requests := c.requests - {r}, cancelled := if c.acks then c.cancelled + {r} else c.cancelled)
  }

  /** A chunk asked for where there is room ends up with the asker exactly when it was free, its own, or yielded. */
  lemma PullDecides(s: State, p: PeerId, pull: Pull)
    requires Core(s) && Grantable(s, p, pull.req) && |s.book.peers[p].requests| < pull.limit
    ensures TryPull(s, p, pull).Done?
    ensures var (b1, go) := TryPull(s, p, pull).value; Decided(s.book, b1, p, pull.req, go, pull.more)
  {
    hide TryPull, Core, Decided;
    if pull.req !in s.book.owner || s.book.owner[pull.req] == p {
      FreeDecides(s, p, pull);
    } else {
      HeldDecides(s, p, pull);
    }
  }

  lemma FreeDecides(s: State, p: PeerId, pull: Pull)
    requires Core(s) && Grantable(s, p, pull.req) && |s.book.peers[p].requests| < pull.limit
    requires pull.req in s.book.owner ==> s.book.owner[pull.req] == p
    ensures TryPull(s, p, pull).Done?
    ensures var (b1, go) := TryPull(s, p, pull).value; Decided(s.book, b1, p, pull.req, go, pull.more)
  {
    var r := pull.req;
    NotElsewhere(s.book, p, r);
    hide TryPull, Core, Grantable, MakeRequest, Yields, Decided, Entered, AddRequest, TakenFrom;
    if r !in s.book.owner {
      NewlyMade(s, p, r, pull.limit);
      AsksFreely(s, p, pull);
      FreshIs(s.book, AddRequest(s.book, p, r), p, r, pull.more);
    } else {
      OwnAlready(s, p, r, pull.limit);
      AsksFreely(s, p, pull);
      OwnIs(s.book, p, r, pull.more);
    }
  }

  lemma FreshIs(b: Book, b1: Book, p: PeerId, r: Req, more: bool)
    requires r !in b.owner && Entered(b, b1, p, r)
    requires forall q :: q in b.peers && q != p ==> TakenFrom(b.peers[q], r) == b.peers[q]
    ensures Decided(b, b1, p, r, more, more)
  {
    hide Yields, TakenFrom;
  }

  lemma OwnIs(b: Book, p: PeerId, r: Req, more: bool)
    requires p in b.peers && r in b.owner && b.owner[r] == p && r in b.peers[p].requests
    requires forall q :: q in b.peers && q != p ==> TakenFrom(b.peers[q], r) == b.peers[q]
    ensures Decided(b, b, p, r, more, more)
  {
    hide Yields, TakenFrom;
  }

  lemma NotElsewhere(b: Book, p: PeerId, r: Req)
    requires Sound(b) && (r in b.owner ==> b.owner[r] == p)
    ensures forall q :: q in b.peers && q != p ==> TakenFrom(b.peers[q], r) == b.peers[q]
  {
    forall q | q in b.peers && q != p ensures r !in b.peers[q].requests {
      RecordsMirror(b, q, r);
    }
  }

  lemma HeldDecides(s: State, p: PeerId, pull: Pull)
    requires Core(s) && Grantable(s, p, pull.req) && |s.book.peers[p].requests| < pull.limit
    requires pull.req in s.book.owner && s.book.owner[pull.req] != p
    ensures TryPull(s, p, pull).Done?
    ensures var (b1, go) := TryPull(s, p, pull).value; Decided(s.book, b1, p, pull.req, go, pull.more)
  {
    StealTest(s.book, p, s.book.owner[pull.req]);
    hide TryPull, MaySteal, Core, Grantable, Yields;
    if Yields(s.book, p, s.book.owner[pull.req]) {
      StealDecides(s, p, pull);
    } else {
      LeavesIt(s, p, pull);
    }
  }

  lemma StealDecides(s: State, p: PeerId, pull: Pull)
    requires Core(s) && Grantable(s, p, pull.req) && |s.book.peers[p].requests| < pull.limit
    requires pull.req in s.book.owner && s.book.owner[pull.req] != p && Yields(s.book, p, s.book.owner[pull.req])
    ensures TryPull(s, p, pull).Done?
    ensures var (b1, go) := TryPull(s, p, pull).value; Decided(s.book, b1, p, pull.req, go, pull.more)
  {
    var r := pull.req;
    StealTest(s.book, p, s.book.owner[r]);
    OwnerGone(s.book, r);
    TakenAway(s, p, r);
    hide TryPull, MaySteal, CancelRequest, Core, Grantable, MakeRequest, Yields, Decided, AddRequest, Entered, TakenFrom;
    var b0 := CancelRequest(s.book, r).value;
    NewlyMade(s.(book := b0), p, r, pull.limit);
    Steals(s, p, pull);
    StolenIs(s.book, b0, AddRequest(b0, p, r), p, r, pull.more);
  }

  lemma StolenIs(b: Book, b0: Book, b1: Book, p: PeerId, r: Req, more: bool)
    requires p in b.peers && p in b0.peers && r in b.owner && Yields(b, p, b.owner[r])
    requires b0.owner == b.owner - {r} && b0.peers[p] == b.peers[p] && Entered(b0, b1, p, r)
    requires forall q :: q in b.peers && q != p ==> q in b0.peers && b0.peers[q] == TakenFrom(b.peers[q], r)
    ensures Decided(b, b1, p, r, more, more)
  {
    hide Yields, TakenFrom;
  }

  lemma OwnerGone(b: Book, r: Req)
    requires Sound(b)
    ensures CancelRequest(b, r).Done? && CancelRequest(b, r).value.owner == b.owner - {r}
    ensures var b0 := CancelRequest(b, r).value; forall q :: q in b.peers ==> q in b0.peers && b0.peers[q] == TakenFrom(b.peers[q], r)
  {
    CancelRequestSafe(b, r);
    forall q | q in b.peers ensures CancelRequest(b, r).value.peers[q] == TakenFrom(b.peers[q], r) {
      CancelRequestEffect(b, r, q);
    }
  }

  lemma OwnAlready(s: State, p: PeerId, r: Req, limit: int)
    requires Core(s) && Grantable(s, p, r) && r in s.book.owner && s.book.owner[r] == p
    ensures MakeRequest(s, p, r, limit) == Done((s.book, false)) && r in s.book.peers[p].requests
  {
    hide MayRequest;
  }

  lemma NewlyMade(s: State, p: PeerId, r: Req, limit: int)
    requires Core(s) && Grantable(s, p, r) && r !in s.book.owner && |s.book.peers[p].requests| < limit
    ensures MakeRequest(s, p, r, limit) == Done((AddRequest(s.book, p, r), false))
    ensures Entered(s.book, AddRequest(s.book, p, r), p, r)
  {
    assert r !in s.book.peers[p].requests;
    hide MayRequest, Core;
    AddedEntry(s.book, p, r);
  }

  /** The chunk is entered as requested from `p`, and nothing else is changed. */
  ghost predicate Entered(b: Book, b1: Book, p: PeerId, r: Req) {
    && p in b.peers && p in b1.peers && b1.owner == b.owner[r := p] && AskedAt(b.peers[p], b1.peers[p], r)
    && forall q :: q in b.peers && q != p ==> q in b1.peers && b1.peers[q] == b.peers[q]
  }

  lemma AddedEntry(b: Book, p: PeerId, r: Req)
    requires p in b.peers
    ensures Entered(b, AddRequest(b, p, r), p, r)
  {
  }

  /** A chunk that is refused for want of room is taken from its holder all the same. */
  lemma RefusedIsLost(s: State, p: PeerId, pull: Pull)
    requires Core(s) && Grantable(s, p, pull.req) && |s.book.peers[p].requests| >= pull.limit
    requires pull.req in s.book.owner && s.book.owner[pull.req] != p && Yields(s.book, p, s.book.owner[pull.req])
    ensures TryPull(s, p, pull).Done?
    ensures var (b1, go) := TryPull(s, p, pull).value; !go && b1.owner == s.book.owner - {pull.req}
  {
    var r := pull.req;
    hide TryPull, MaySteal, CancelRequest;
    StealTest(s.book, p, s.book.owner[r]);
    TakenAway(s, p, r);
    OwnerGone(s.book, r);
    NoRoom(s.(book := CancelRequest(s.book, r).value), p, r, pull.limit);
    Steals(s, p, pull);
  }

  lemma NoRoom(s: State, p: PeerId, r: Req, limit: int)
    requires Core(s) && Grantable(s, p, r) && r !in s.book.owner && |s.book.peers[p].requests| >= limit
    ensures MakeRequest(s, p, r, limit) == Done((s.book, true))
  {
    assert r !in s.book.peers[p].requests;
    hide MayRequest;
  }

  ghost predicate OwnedStay(b: Book, b1: Book) {
    forall x :: x in b.owner ==> x in b1.owner
  }

  /** The pipeline is full, or every pulled chunk is requested from somebody. */
  ghost predicate FullOrAsked(b: Book, p: PeerId, pulls: seq<Pull>, maxReq: int) {
    p in b.peers && (|b.peers[p].requests| + |b.peers[p].cancelled| >= maxReq || forall k :: 0 <= k < |pulls| ==> pulls[k].req in b.owner)
  }

  /**
    With room at every request and in the write buffer, the loop goes on until the pipeline is full or every chunk it
    popped is requested from somebody; and no chunk that was requested is left without a holder.
  */
  lemma {:induction false} AllPulledAreRequested(s: State, p: PeerId, pulls: seq<Pull>, maxReq: int)
    requires Core(s) && p in s.book.peers
    requires forall k :: 0 <= k < |pulls| ==> Grantable(s, p, pulls[k].req) && pulls[k].more && pulls[k].limit >= maxReq
    ensures ApplyPulls(s, p, pulls, maxReq).Done?
    ensures var b := ApplyPulls(s, p, pulls, maxReq).value.book; OwnedStay(s.book, b) && FullOrAsked(b, p, pulls, maxReq)
    decreases |pulls|
  {
    PullUnfolds(s, p, pulls, maxReq);
    hide ApplyPulls, TryPull, Core, Grantable;
    if pulls != [] && Outstanding(s.book, p) < maxReq {
      var b := OneAsked(s, p, pulls, maxReq);
      hide OwnedStay, Outstanding;
      AllPulledAreRequested(s.(book := b), p, pulls[1..], maxReq);
      AskedMore(s.book, b, ApplyPulls(s.(book := b), p, pulls[1..], maxReq).value.book, p, pulls, maxReq);
    }
  }

  lemma OneAsked(s: State, p: PeerId, pulls: seq<Pull>, maxReq: int) returns (b: Book)
    requires Core(s) && p in s.book.peers && pulls != [] && Outstanding(s.book, p) < maxReq
    requires forall k :: 0 <= k < |pulls| ==> Grantable(s, p, pulls[k].req) && pulls[k].more && pulls[k].limit >= maxReq
    ensures TryPull(s, p, pulls[0]) == Done((b, true)) && p in b.peers && Core(s.(book := b))
    ensures OwnedStay(s.book, b) && pulls[0].req in b.owner
    ensures forall k :: 0 <= k < |pulls[1..]| ==>
              Grantable(s.(book := b), p, pulls[1..][k].req) && pulls[1..][k].more && pulls[1..][k].limit >= maxReq
  {
    hide TryPull, Core, Grantable, Yields, SameFooting;
    TryPullSafe(s, p, pulls[0]);
    PullDecides(s, p, pulls[0]);
    b := TryPull(s, p, pulls[0]).value.0;
    StillAskable(s, b, p, pulls);
  }

  lemma AskedMore(b: Book, b1: Book, b2: Book, p: PeerId, pulls: seq<Pull>, maxReq: int)
    requires pulls != [] && OwnedStay(b, b1) && OwnedStay(b1, b2) && pulls[0].req in b1.owner && FullOrAsked(b2, p, pulls[1..], maxReq)
    ensures OwnedStay(b, b2) && FullOrAsked(b2, p, pulls, maxReq)
  {
    assert forall k :: 0 < k < |pulls| ==> pulls[k] == pulls[1..][k - 1];
  }

  /**
    An update of a peer's requests, in an open torrent that may download: once interest is sent, with room at every
    request and in the write buffer, the pipeline is full afterwards or all that was desired is requested from somebody.
  */
  lemma UpdateRequestsEffect(s: State, p: PeerId, visited: set<nat>, pulls: seq<Pull>, maxReq: int)
    requires Inv(s) && p in s.book.peers && !s.book.peers[p].closed && !s.closed && !s.disallowed && visited <= s.wants.pending
    requires forall k :: 0 <= k < |pulls| ==> Desired(s, p, visited, pulls[k].req) && pulls[k].more && pulls[k].limit >= maxReq
    ensures Step(s, UpdateRequests(p, visited, false, pulls, maxReq)) == Next(s)
    ensures Step(s, UpdateRequests(p, visited, true, pulls, maxReq)).Next?
    ensures var b := Step(s, UpdateRequests(p, visited, true, pulls, maxReq)).state.book;
            OwnedStay(s.book, b) && FullOrAsked(b, p, pulls, maxReq)
  {
    forall k | 0 <= k < |pulls| ensures Grantable(s, p, pulls[k].req) {
      DesiredIsGrantable(s, p, visited, pulls[k].req);
    }
    Basics(s);
    assert Core(s);
    hide Inv, Core, Grantable, Desired, ApplyPulls, FullOrAsked, OwnedStay, HashStep, WantsStep;
    AllPulledAreRequested(s, p, pulls, maxReq);
  }

  // ---------- receiving ----------

  /** The chunk a received block is recorded under, if the block lies in the torrent and the peer may send it. */
  ghost predicate Expected(s: State, p: PeerId, index: nat, begin: nat)
    requires p in s.book.peers && s.cfg.geo.chunkSize > 0
  {
    && index < s.cfg.geo.pieces && begin < s.cfg.geo.PieceLength(index)
    && s.cfg.geo.FromRequest(G.Request(index, begin, 0)) in s.book.peers[p].expected
  }

  /** Settling alone: the receiver neither requests nor has cancelled the chunk any more, and expects it once less. */
  ghost predicate SettledAt(c: Peer, c1: Peer, r: Req) {
    && c1.requests == c.requests - {r} && c1.cancelled == c.cancelled - {r} && r in c.expected
    && c1.expected == (if c.expected[r] <= 1 then c.expected - {r} else c.expected[r := c.expected[r] - 1])
  }

  /**
    A block that is not expected changes nothing. An expected one is settled, and its chunk becomes dirty, counts as a
    write under way, is requested from nobody and makes the peer useful, unless the chunk was there already.
  */
  lemma ReceiveEffect(s: State, p: PeerId, index: nat, begin: nat, now: int)
    requires Inv(s) && p in s.book.peers && !s.book.peers[p].closed && !s.closed && p !in s.pc.writing
    ensures Step(s, Receive(p, index, begin, now)).Next?
    ensures var s1 := Step(s, Receive(p, index, begin, now)).state;
            var r := s.cfg.geo.FromRequest(G.Request(index, begin, 0));
            var i := s.cfg.grid.PieceOf(r);
            if !Expected(s, p, index, begin) then s1 == s
            else
              && i == index && p in s1.book.peers && SettledAt(s.book.peers[p], s1.book.peers[p], r)
              && if r in s.pc.dirty || i in s.pc.complete
                 then s1 == s.(book := s1.book) && s1.book.peers[p].lastUseful == s.book.peers[p].lastUseful
                 else && s1 == s.(book := s1.book, pc := s1.pc) && s1.book.peers[p].lastUseful == now
                      && r !in s1.book.owner && (forall q :: q in s1.book.peers ==> r !in s1.book.peers[q].requests)
                      && s1.pc == s.pc.(dirty := s.pc.dirty + {r}, writing := s.pc.writing[p := r], pendingWrites := s1.pc.pendingWrites)
                      && i in s1.pc.pendingWrites && s1.pc.pendingWrites[i] == |Writers(s.cfg.grid, s.pc.writing, i)| + 1
  {
    ReceiveSteps(s, p, index, begin, now);
    var r := s.cfg.geo.FromRequest(G.Request(index, begin, 0));
    if Expected(s, p, index, begin) {
      ReceivedChunk(s.cfg.geo, index, begin);
      TakeExpectedEffect(s, p, r, now);
    }
    Basics(s);
    hide Inv, Step, TakeExpected, SettledAt;
  }

  lemma ReceiveSteps(s: State, p: PeerId, index: nat, begin: nat, now: int)
    requires Inv(s) && p in s.book.peers && !s.book.peers[p].closed && !s.closed && p !in s.pc.writing
    ensures Step(s, Receive(p, index, begin, now)) ==
            if Expected(s, p, index, begin)
            then Lift(TakeExpected(s, p, s.cfg.geo.FromRequest(G.Request(index, begin, 0)), now)) else Next(s)
  {
    hide TakeExpected, Sound, CacheExactBut, NoneStuck;
  }

  lemma TakeExpectedEffect(s: State, p: PeerId, r: Req, now: int)
    requires Inv(s) && p in s.book.peers && r in s.book.peers[p].expected
    ensures TakeExpected(s, p, r, now).Done?
    ensures var s1, i := TakeExpected(s, p, r, now).value, s.cfg.grid.PieceOf(r);
            && p in s1.book.peers && SettledAt(s.book.peers[p], s1.book.peers[p], r)
            && if r in s.pc.dirty || i in s.pc.complete
               then s1 == s.(book := s1.book) && s1.book.peers[p].lastUseful == s.book.peers[p].lastUseful
               else && s1 == s.(book := s1.book, pc := s1.pc) && s1.book.peers[p].lastUseful == now
                    && r !in s1.book.owner && (forall q :: q in s1.book.peers ==> r !in s1.book.peers[q].requests)
                    && s1.pc == s.pc.(dirty := s.pc.dirty + {r}, writing := s.pc.writing[p := r], pendingWrites := s1.pc.pendingWrites)
                    && i in s1.pc.pendingWrites && s1.pc.pendingWrites[i] == |Writers(s.cfg.grid, s.pc.writing, i)| + 1
  {
    var c := s.book.peers[p];
    assert PeerOk(c) && Pending(s.pc, s.cfg.grid.PieceOf(r)) == |Writers(s.cfg.grid, s.pc.writing, s.cfg.grid.PieceOf(r))|;
    TakeChunkSafe(s.book, p, r);
    TakeChunkEffect(s.book, p, r);
    var b1 := TakeChunk(s.book, p, r).value.0;
    TakenSettles(c, r);
    Basics(s);
    hide Inv, TakeChunk, Writers, PeerOk, Taken, SettledAt;
    if !HaveChunk(s, r) {
      WriteBeginsFor(s.(book := b1), p, r, now);
    }
  }

  lemma TakenSettles(c: Peer, r: Req)
    requires r in c.expected && c.expected[r] >= 1
    ensures forall now: int :: SettledAt(c, Taken(c, r).(lastUseful := now), r)
    ensures SettledAt(c, Taken(c, r), r) && Taken(c, r).lastUseful == c.lastUseful
  {
  }

  lemma WriteBeginsFor(s: State, p: PeerId, r: Req, now: int)
    requires Sound(s.book) && p in s.book.peers && (r in s.book.owner ==> s.book.owner[r] != p)
    ensures BeginWrite(s, p, r, now).Done?
    ensures var s1, i := BeginWrite(s, p, r, now).value, s.cfg.grid.PieceOf(r);
            && p in s1.book.peers && s1.book.peers[p] == s.book.peers[p].(lastUseful := now)
            && r !in s1.book.owner && (forall q :: q in s1.book.peers ==> r !in s1.book.peers[q].requests)
            && s1 == s.(book := s1.book,
                        pc := s.pc.(pendingWrites := s.pc.pendingWrites[i := Pending(s.pc, i) + 1],
                                    dirty := s.pc.dirty + {r}, writing := s.pc.writing[p := r]))
  {
    BeginWriteEffect(s, p, r, now);
    UsefulKeeps(s.book, p, now);
    var b := With(s.book, p, s.book.peers[p].(lastUseful := now));
    CancelRequestEffect(b, r, p);
    RecordsMirror(s.book, p, r);
    var s1 := BeginWrite(s, p, r, now).value;
    forall q | q in s1.book.peers ensures r !in s1.book.peers[q].requests {
      RecordsMirror(s1.book, q, r);
    }
    hide Sound, CancelRequest, PeerOk;
  }

  // ---------- hashers ----------

  /** The piece could have had a hasher before, and still waits. */
  ghost predicate Waiting(s: State, s1: State, j: nat) {
    j in s1.pc.queued && j !in s.pc.hashing && j !in s.pc.marking && j < s.cfg.grid.pieces
  }

  /** The pieces that hashers were started for: taken off the queue, lowest first, and nothing else. */
  ghost predicate Started(s: State, s1: State) {
    && s1 == s.(pc := s1.pc, wants := s1.wants)
    && s1.pc == s.pc.(queued := s1.pc.queued, hashing := s1.pc.hashing, active := s1.pc.active)
    && s1.pc.queued <= s.pc.queued && s1.pc.hashing == s.pc.hashing + (s.pc.queued - s1.pc.queued)
    && (forall i, j :: i in s.pc.queued - s1.pc.queued && Waiting(s, s1, j) ==> i < j)
    && s1.wants == s.wants.(pending := s1.wants.pending)
  }

  lemma {:induction false} FirstFree(pc: Pieces, i: nat, n: nat, j: nat)
    requires i <= n && PieceToHash(pc, i, n).Some? && i <= j < n && j in pc.queued && j !in pc.hashing && j !in pc.marking
    ensures PieceToHash(pc, i, n).value <= j
    decreases n - i
  {
    if !(i in pc.queued && i !in pc.hashing && i !in pc.marking) {
      FirstFree(pc, i + 1, n, j);
    }
  }

  lemma {:induction false} FillStarts(s: State)
    ensures Started(s, FillHashers(s))
    decreases |s.pc.queued|
  {
    match NextHash(s)
    case None =>
      assert s.pc.hashing + (s.pc.queued - s.pc.queued) == s.pc.hashing;
    case Some(i) =>
      var s1 := StartHashing(s, i);
      FillStarts(s1);
      StartedMore(s, i, FillHashers(s1));
  }

  lemma StartedMore(s: State, i: nat, s2: State)
    requires NextHash(s) == Some(i) && Started(StartHashing(s, i), s2)
    ensures Started(s, s2)
  {
    var s1 := StartHashing(s, i);
    assert i in s.pc.queued;
    assert s.pc.queued - s2.pc.queued == (s1.pc.queued - s2.pc.queued) + {i};
    forall j: nat | Waiting(s, s2, j) ensures i < j && Waiting(s1, s2, j) {
      FirstFree(s.pc, 0, s.cfg.grid.pieces, j);
    }
    hide PieceToHash, Wanted;
  }

  /** A piece to be verified is queued afterwards or already being hashed. */
  lemma VerifyEffect(s: State, i: nat)
    requires Inv(s) && i < s.cfg.grid.pieces
    ensures Step(s, Verify(i)).Next?
    ensures var s1 := Step(s, Verify(i)).state;
            && (i in s1.pc.queued || i in s1.pc.hashing)
            && s1.pc.complete == s.pc.complete && s1.pc.dirty == s.pc.dirty && s1.book == s.book
  {
    QueueEffect(s, i);
    Basics(s);
    hide QueueCheck, Inv;
  }

  /** A passed hash hands the piece to storage while the torrent is open, and changes no chunk. */
  lemma PassedEffect(s: State, i: nat)
    requires Inv(s) && i in s.pc.hashing
    ensures Step(s, Passed(i)).Next?
    ensures var s1 := Step(s, Passed(i)).state;
            && s1.pc.complete == s.pc.complete && s1.pc.dirty == s.pc.dirty && s1.book == s.book
            && (i in s1.pc.marking <==> !s.closed) && (!s.closed ==> i !in s1.pc.hashing)
  {
    var s1 := Reprioritize(s.(pc := s.pc.(hashing := s.pc.hashing - {i})), i);
    FillStarts(s1.(pc := s1.pc.(active := s1.pc.active - 1)));
    assert s.pc.hashing !! s.pc.marking;
    hide FillHashers, Wanted;
  }

  lemma FinishEffect(s: State, i: nat)
    ensures var s1 := FinishHash(s, i);
            && s1.pc.complete == s.pc.complete && s1.pc.dirty == s.pc.dirty && s1.pc.marking == s.pc.marking
            && s1.book == s.book && s1.closed == s.closed
  {
    var s1 := Reprioritize(s, i);
    FillStarts(s1.(pc := s1.pc.(active := s1.pc.active - 1)));
    hide FillHashers, Wanted;
  }

  /** Storage's answer is news: it differs from what was cached, or is the first that can be trusted. */
  ghost predicate IsNews(s: State, i: nat, complete: bool, okChanged: bool) {
    okChanged || (complete <==> i !in s.pc.complete)
  }

  function DirtyElsewhere(s: State, i: nat): set<Req> {
    set r | r in s.pc.dirty && s.cfg.grid.PieceOf(r) != i
  }

  /** The piece is complete exactly if `complete`, no other is more or less so; `clear` says whether its chunks are all clean. */
  ghost predicate Answered(s: State, s1: State, i: nat, complete: bool, clear: bool) {
    && s1.pc.complete == (if complete then s.pc.complete + {i} else s.pc.complete - {i})
    && s1.pc.dirty == (if clear then DirtyElsewhere(s, i) else s.pc.dirty)
    && s1.book.peers.Keys == s.book.peers.Keys
    && (forall r :: r in s1.book.owner ==> r in s.book.owner && s1.book.owner[r] == s.book.owner[r])
    && (forall r :: r in s.book.owner && (s.cfg.grid.PieceOf(r) != i || !complete) ==> r in s1.book.owner)
  }

  lemma AnswerEffect(s: State, i: nat, complete: bool, okChanged: bool)
    requires i < s.cfg.grid.pieces
    ensures var s1 := UpdateCompletion(s, i, complete, okChanged);
            && Answered(s, s1, i, complete, IsNews(s, i, complete, okChanged) && (complete || s.cfg.grid.AllDirty(s.pc.dirty, i)))
            && s1.pc.marking == s.pc.marking && s1.closed == s.closed && s1.cfg == s.cfg
  {
    var s0 := s.(pc := s.pc.(complete := if complete then s.pc.complete + {i} else s.pc.complete - {i}));
    if !IsNews(s, i, complete, okChanged) {
      hide Wanted, RawGrid.AllDirty;
    } else if complete {
      CompletedIs(s, s0, i);
      hide Wanted, OnCompleted, Answered;
    } else {
      assert PendAll(s.cfg.grid, s.pc.dirty, i) == DirtyElsewhere(s, i);
      hide Wanted, RawGrid.AllDirty, RawGrid.PieceOf, PendAll, DirtyElsewhere;
    }
  }

  lemma CompletedIs(s: State, s0: State, i: nat)
    requires i < s.cfg.grid.pieces && s0 == s.(pc := s.pc.(complete := s.pc.complete + {i}))
    ensures forall w :: Answered(s, OnCompleted(s0, i).(wants := w), i, true, true)
    ensures OnCompleted(s0, i) == s0.(pc := OnCompleted(s0, i).pc, book := OnCompleted(s0, i).book)
    ensures OnCompleted(s0, i).pc.marking == s.pc.marking
  {
    forall r: nat ensures r in s.cfg.grid.ChunksOf(i) ==> s.cfg.grid.PieceOf(r) == i {
      InPiece(s.cfg.grid, i, r);
    }
    assert PendAll(s.cfg.grid, s.pc.dirty, i) == DirtyElsewhere(s, i);
    hide RawGrid.ChunksOf, RawGrid.PieceOf, PendAll, DirtyElsewhere;
  }

  /** A torrent that is closed keeps what it had. */
  ghost predicate Untouched(s: State, s1: State) {
    s1.pc.complete == s.pc.complete && s1.pc.dirty == s.pc.dirty && s1.book == s.book
  }

  /**
    After storage has marked a piece of an open torrent, the piece is complete exactly if storage says so, no chunk of
    it is dirty, and nothing else is more or less complete; a closed torrent keeps what it had.
  */
  lemma MarkedEffect(s: State, i: nat, complete: bool, okChanged: bool)
    requires Inv(s) && i in s.pc.marking
    ensures Step(s, Marked(i, complete, okChanged)).Next?
    ensures var s1 := Step(s, Marked(i, complete, okChanged)).state;
            i !in s1.pc.marking && if s.closed then Untouched(s, s1) else Answered(s, s1, i, complete, true)
  {
    MarkDoneEffect(s, i, complete, okChanged);
    Basics(s);
    hide Inv, MarkDone, Answered, Untouched, WantsStep;
  }

  lemma MarkDoneEffect(s: State, i: nat, complete: bool, okChanged: bool)
    requires i < s.cfg.grid.pieces
    ensures var s1 := MarkDone(s, i, complete, okChanged);
            i !in s1.pc.marking && if s.closed then Untouched(s, s1) else Answered(s, s1, i, complete, true)
  {
    var s0 := s.(pc := s.pc.(dirty := PendAll(s.cfg.grid, s.pc.dirty, i)));
    AnswerEffect(s0, i, complete, okChanged);
    var s1 := if s.closed then s else UpdateCompletion(s0, i, complete, okChanged);
    FinishEffect(s1.(pc := s1.pc.(marking := s1.pc.marking - {i})), i);
    assert DirtyElsewhere(s0, i) == DirtyElsewhere(s, i) == s0.pc.dirty;
    hide UpdateCompletion, FinishHash, RawGrid.AllDirty, IsNews;
  }

  /** A failed hash leaves the piece complete exactly if storage says so, and pends all of it if all of it was dirty. */
  lemma FailedEffect(s: State, i: nat, complete: bool, okChanged: bool)
    requires Inv(s) && i in s.pc.hashing
    ensures Step(s, Failed(i, complete, okChanged)).Next?
    ensures var s1 := Step(s, Failed(i, complete, okChanged)).state;
            && i !in s1.pc.marking
            && if s.closed then Untouched(s, s1)
               else Answered(s, s1, i, complete,
                             s.cfg.grid.ChunksOf(i) <= s.pc.dirty || (complete && IsNews(s, i, complete, okChanged)))
  {
    FailedFacts(s, i);
    HashFailedEffect(s, i, complete, okChanged);
    Basics(s);
    hide Inv, HashFailed, Answered, Untouched, WantsStep, RawGrid.AllDirty;
  }

  lemma FailedFacts(s: State, i: nat)
    requires Inv(s) && i in s.pc.hashing
    ensures i < s.cfg.grid.pieces && i !in s.pc.marking
    ensures s.cfg.grid.AllDirty(s.pc.dirty, i) <==> s.cfg.grid.ChunksOf(i) <= s.pc.dirty
  {
    AllDirtyMeans(s.cfg.grid, s.pc.dirty, i);
  }

  lemma HashFailedEffect(s: State, i: nat, complete: bool, okChanged: bool)
    requires i < s.cfg.grid.pieces && i !in s.pc.marking
    ensures var s1 := HashFailed(s, i, complete, okChanged);
            && i !in s1.pc.marking
            && if s.closed then Untouched(s, s1)
               else Answered(s, s1, i, complete,
                             s.cfg.grid.AllDirty(s.pc.dirty, i) || (complete && IsNews(s, i, complete, okChanged)))
  {
    var s1 := s.(pc := s.pc.(hashing := s.pc.hashing - {i}));
    FinishEffect(s1, i);
    var s0 := s1.(pc := s1.pc.(marking := s1.pc.marking + {i}));
    var s2 := OnIncomplete(s0, i);
    ClearedOnce(s, s0, s2, i);
    AnswerEffect(s2, i, complete, okChanged);
    var s3 := UpdateCompletion(s2, i, complete, okChanged);
    FinishEffect(s3.(pc := s3.pc.(marking := s3.pc.marking - {i})), i);
    hide UpdateCompletion, FinishHash, RawGrid.AllDirty, RawGrid.PieceOf, OnIncomplete, PendAll;
  }

  /** Pending a full piece leaves nothing of it dirty, so that it is not full. */
  lemma ClearedOnce(s: State, s0: State, s2: State, i: nat)
    requires i < s.cfg.grid.pieces && s0.cfg == s.cfg && s0.pc.dirty == s.pc.dirty && s0.pc.complete == s.pc.complete
    requires s0.book == s.book && s0.closed == s.closed && s2 == OnIncomplete(s0, i)
    ensures s2 == s0.(pc := s0.pc.(dirty := if s.cfg.grid.AllDirty(s.pc.dirty, i) then DirtyElsewhere(s, i) else s.pc.dirty))
    ensures DirtyElsewhere(s2, i) == DirtyElsewhere(s, i) && !s.cfg.grid.AllDirty(s2.pc.dirty, i)
  {
    FirstChunk(s.cfg.grid, i);
    assert s.cfg.grid.DirtyIn(DirtyElsewhere(s, i), i) == {};
    assert PendAll(s.cfg.grid, s.pc.dirty, i) == DirtyElsewhere(s, i);
  }

  /** What storage says of any piece at any time is taken over. */
  lemma CompletionEffect(s: State, i: nat, complete: bool, okChanged: bool)
    requires Inv(s) && i < s.cfg.grid.pieces
    ensures Step(s, Completion(i, complete, okChanged)).Next?
    ensures Answered(s, Step(s, Completion(i, complete, okChanged)).state, i, complete,
                     IsNews(s, i, complete, okChanged) && (complete || s.cfg.grid.ChunksOf(i) <= s.pc.dirty))
  {
    AnswerEffect(s, i, complete, okChanged);
    AllDirtyMeans(s.cfg.grid, s.pc.dirty, i);
    Basics(s);
    hide Inv, UpdateCompletion, Answered, RawGrid.AllDirty;
  }

  lemma QueueEffect(s: State, i: nat)
    ensures var s1 := QueueCheck(s, i);
            && (i in s1.pc.queued || i in s1.pc.hashing)
            && s1 == s.(pc := s.pc.(queued := s1.pc.queued, hashing := s1.pc.hashing, active := s1.pc.active), wants := s1.wants)
  {
    FillStarts(Reprioritize(s.(pc := s.pc.(queued := s.pc.queued + {i})), i));
    hide FillHashers, Wanted;
  }

  /** The write of chunk `r` of piece `i` has ended, one of `writes` under way in that piece. */
  ghost predicate WriteEnded(s: State, s1: State, p: PeerId, r: Req, i: nat, ok: bool, writes: int) {
    && s1.pc.writing == s.pc.writing - {p} && s1.book == s.book && s1.pc.complete == s.pc.complete
    && s1.pc.dirty == (if ok then s.pc.dirty else s.pc.dirty - {r})
    && writes >= 1 && s1.pc.pendingWrites == s.pc.pendingWrites[i := writes - 1]
    && (!ok ==> s1.pc.queued == s.pc.queued && s1.pc.hashing == s.pc.hashing)
    && (ok && writes == 1 && s.cfg.grid.ChunksOf(i) <= s.pc.dirty ==> i in s1.pc.queued || i in s1.pc.hashing)
  }

  /** A write that succeeds keeps its chunk, and the last one of a full piece has the piece checked; a failed one loses it. */
  lemma WriteDoneEffect(s: State, p: PeerId, ok: bool)
    requires Inv(s) && p in s.pc.writing
    ensures Step(s, WriteDone(p, ok, true, [])).Next?
    ensures var r := s.pc.writing[p];
            var i := s.cfg.grid.PieceOf(r);
            WriteEnded(s, Step(s, WriteDone(p, ok, true, [])).state, p, r, i, ok, |Writers(s.cfg.grid, s.pc.writing, i)|)
  {
    hide Inv, Writers, EndWrite, WriteEnded, HashStep, WantsStep;
    Basics(s);
    WriteFacts(s, p);
    EndWriteKeeps(s, p, ok, true, []);
    WriteEndsAs(s, p, ok);
  }

  lemma WriteFacts(s: State, p: PeerId)
    requires Inv(s) && p in s.pc.writing
    ensures var i := s.cfg.grid.PieceOf(s.pc.writing[p]);
            Pending(s.pc, i) == |Writers(s.cfg.grid, s.pc.writing, i)| && i < s.cfg.grid.pieces
    ensures forall r :: r in s.pc.dirty ==> s.cfg.grid.IsChunk(r)
  {
    hide Sound, NoneStuck, CacheExactBut, HashersCounted;
  }

  lemma WriteEndsAs(s: State, p: PeerId, ok: bool)
    requires p in s.pc.writing && EndWrite(s, p, ok, true, []).Done? && s.cfg.grid.PieceOf(s.pc.writing[p]) < s.cfg.grid.pieces
    requires forall r :: r in s.pc.dirty ==> s.cfg.grid.IsChunk(r)
    ensures var r := s.pc.writing[p];
            var i := s.cfg.grid.PieceOf(r);
            WriteEnded(s, EndWrite(s, p, ok, true, []).value, p, r, i, ok, Pending(s.pc, i))
  {
    var i := s.cfg.grid.PieceOf(s.pc.writing[p]);
    var pc1 := s.pc.(pendingWrites := s.pc.pendingWrites[i := Pending(s.pc, i) - 1], writing := s.pc.writing - {p});
    AllDirtyMeans(s.cfg.grid, s.pc.dirty, i);
    QueueEffect(s.(pc := pc1), i);
    hide QueueCheck, RawGrid.AllDirty, RawGrid.ChunksOf;
  }

  // ---------- connections and their messages ----------

  /** Only the ledger differs, and in it no peer's entry but that of `p`. */
  ghost predicate OnlyPeer(s: State, s1: State, p: PeerId) {
    s1 == s.(book := s1.book) && p in s1.book.peers && OtherPeersSame(s.book, s1.book, p)
  }

  /** A connection that joins has said nothing, chokes us, and owes nothing. */
  lemma JoinsEffect(s: State, p: PeerId, fast: bool, acks: bool, allowed: set<nat>)
    requires Inv(s) && p !in s.book.peers && p !in s.pc.writing && !s.closed && (acks ==> fast)
    ensures Step(s, OfPeer(p, Joins(fast, acks, allowed))).Next?
    ensures var s1 := Step(s, OfPeer(p, Joins(fast, acks, allowed))).state;
            && OnlyPeer(s, s1, p) && s1.book.owner == s.book.owner
            && var c := s1.book.peers[p];
               && c.fast == fast && c.acks == acks && c.allowedFast == allowed && c.active && !c.closed && c.choking
               && c.has == {} && c.requests == {} && c.cancelled == {} && c.expected == map[]
  {
    hide HashStep, WantsStep, Sound;
  }

  /** A connection that closes keeps its requests until it is dropped; then they are nobody's. */
  lemma LeavesEffect(s: State, p: PeerId)
    requires Inv(s) && p in s.book.peers
    ensures Step(s, OfPeer(p, Closes)).Next? && Step(s, OfPeer(p, Drops)).Next?
    ensures var s1 := Step(s, OfPeer(p, Closes)).state;
            && OnlyPeer(s, s1, p) && s1.book.owner == s.book.owner && s1.book.peers[p] == s.book.peers[p].(closed := true)
    ensures var s1 := Step(s, OfPeer(p, Drops)).state;
            && OnlyPeer(s, s1, p) && s1.book.peers[p].closed && !s1.book.peers[p].active && s1.book.peers[p].requests == {}
            && (forall r :: r in s1.book.owner <==> r in s.book.owner && s.book.owner[r] != p)
            && (forall r :: r in s1.book.owner ==> s1.book.owner[r] == s.book.owner[r])
  {
    hide HashStep, WantsStep, Sound;
  }

  /** What a peer says it has is what it is taken to have. */
  lemma HasEffect(s: State, p: PeerId, has: set<nat>)
    requires Inv(s) && Listening(s, p)
    ensures Step(s, OfPeer(p, Has(has))).Next?
    ensures var s1 := Step(s, OfPeer(p, Has(has))).state;
            OnlyPeer(s, s1, p) && s1.book.owner == s.book.owner && s1.book.peers[p] == s.book.peers[p].(has := has)
  {
    hide HashStep, WantsStep, Sound;
  }

  /** A chunk still to be had of a visited piece that the peer has, and that awaits no answer to a cancel. */
  ghost predicate AtHand(s: State, p: PeerId, visited: set<nat>, r: Req)
    requires p in s.book.peers
  {
    var c, i := s.book.peers[p], s.cfg.grid.PieceOf(r);
    i in visited && i in c.has && s.cfg.grid.IsChunk(r) && r !in s.pc.dirty && r !in c.cancelled
  }

  /**
    After a choke only chunks of allowed-fast pieces and, from a peer with the fast extension, those it was already
    asked for are desired; the requests of a peer without the extension are nobody's.
  */
  lemma ChokesEffect(s: State, p: PeerId, visited: set<nat>, r: Req)
    requires Inv(s) && Listening(s, p) && !s.book.peers[p].choking
    ensures Step(s, OfPeer(p, Chokes)).Next?
    ensures var c, s1 := s.book.peers[p], Step(s, OfPeer(p, Chokes)).state;
            && OnlyPeer(s, s1, p) && s1.book.peers[p] == c.(choking := true, requests := if c.fast then c.requests else {})
            && (r in s1.book.owner <==> r in s.book.owner && (c.fast || s.book.owner[r] != p))
            && (r in s1.book.owner ==> s1.book.owner[r] == s.book.owner[r])
            && (Desired(s1, p, visited, r) <==>
                  AtHand(s, p, visited, r) && (s.cfg.grid.PieceOf(r) in c.allowedFast || (c.fast && r in c.requests)))
  {
    hide HashStep, WantsStep, Sound;
  }

  /** After an unchoke everything at hand is. */
  lemma UnchokesEffect(s: State, p: PeerId, visited: set<nat>, r: Req)
    requires Inv(s) && Listening(s, p)
    ensures Step(s, OfPeer(p, Unchokes)).Next?
    ensures var c, s1 := s.book.peers[p], Step(s, OfPeer(p, Unchokes)).state;
            && OnlyPeer(s, s1, p) && s1.book.owner == s.book.owner && s1.book.peers[p] == c.(choking := false)
            && (Desired(s1, p, visited, r) <==> AtHand(s, p, visited, r))
  {
    hide HashStep, WantsStep, Sound;
  }

  /** A reject settles a chunk that was requested or cancelled, and changes nothing otherwise. */
  lemma RejectsEffect(s: State, p: PeerId, r: Req)
    requires Inv(s) && Listening(s, p)
    ensures Step(s, OfPeer(p, Rejects(r))).Next?
    ensures var c, s1 := s.book.peers[p], Step(s, OfPeer(p, Rejects(r))).state;
            if r in c.requests || r in c.cancelled
            then && OnlyPeer(s, s1, p) && SettledAt(c, s1.book.peers[p], r)
                 && s1.book.owner == if r in c.requests then s.book.owner - {r} else s.book.owner
            else s1 == s
  {
    Basics(s);
    assert PeerOk(s.book.peers[p]);
    RecordsMirror(s.book, p, r);
    RejectIs(s.book, p, r);
    hide Inv, Sound, RemoteRejected, PeerOk, HashStep, WantsStep;
  }

  lemma RejectIs(b: Book, p: PeerId, r: Req)
    requires Sound(b) && p in b.peers
    ensures RemoteRejected(b, p, r).Done?
    ensures var c, b1 := b.peers[p], RemoteRejected(b, p, r).value.0;
            if r in c.requests || r in c.cancelled
            then && p in b1.peers && OtherPeersSame(b, b1, p) && SettledAt(c, b1.peers[p], r)
                 && b1.owner == if r in c.requests then b.owner - {r} else b.owner
            else b1 == b
  {
    RecordsMirror(b, p, r);
    var c := b.peers[p];
    assert PeerOk(c);
    SettleEffect(b, p, r);
    hide Sound, Settle, PeerOk;
    if r in c.requests || r in c.cancelled {
      var b1 := Settle(b, p, r).value.0;
      ExpectedOnce(b1, p, r);
      hide DecExpected;
    } else {
      assert c.requests - {r} == c.requests && c.cancelled - {r} == c.cancelled && b.peers[p := c] == b.peers;
    }
  }

  lemma ExpectedOnce(b: Book, p: PeerId, r: Req)
    requires p in b.peers && r in b.peers[p].expected && b.peers[p].expected[r] >= 1
    ensures DecExpected(b, p, r) == Done(With(b, p, b.peers[p].(expected := Lowered(b.peers[p].expected, r))))
  {
  }

  /** Closing the torrent closes every connection; what they have requested stays recorded until they are dropped. */
  lemma CloseTorrentEffect(s: State, p: PeerId)
    requires Inv(s)
    ensures Step(s, CloseTorrent).Next?
    ensures var s1 := Step(s, CloseTorrent).state;
            && s1 == s.(closed := true, book := s1.book) && s1.book.owner == s.book.owner && s1.book.peers.Keys == s.book.peers.Keys
            && (p in s.book.peers ==> s1.book.peers[p] == s.book.peers[p].(closed := true))
  {
    hide HashStep, WantsStep, Sound;
  }

  // ---------- what is wanted ----------

  /** Why a piece would be pending under the given priorities and readers. */
  ghost predicate Reason(s: State, files: seq<nat>, pieces: seq<nat>, readers: map<nat, (nat, nat)>, i: nat) {
    || (exists k: nat :: k < |files| && F.Lists(s.cfg.geo, s.cfg.lengths, i, k) && files[k] != 0)
    || (exists id :: id in readers && readers[id].0 <= i < readers[id].1)
    || (i < |pieces| && pieces[i] != 0)
  }

  /** Neither known to be good nor on its way to be checked. */
  ghost predicate Idle(pc: Pieces, i: nat) {
    i !in pc.complete && i !in pc.queued && i !in pc.hashing && i !in pc.marking
  }

  /** Priorities and readers are as given, everything else is as before, and what is pending follows. */
  ghost predicate NowWants(s: State, s1: State, files: seq<nat>, pieces: seq<nat>, readers: map<nat, (nat, nat)>) {
    && s1 == s.(wants := s1.wants)
    && s1.wants.filePrio == files && s1.wants.piecePrio == pieces && s1.wants.readers == readers
    && forall i: nat :: i in s1.wants.pending <==> i < s.cfg.grid.pieces && Idle(s.pc, i) && Reason(s, files, pieces, readers, i)
  }

  lemma WantsFollow(s: State, e: Event)
    requires Inv(s) && AboutWants(e) && Step(s, e).Next?
    ensures var s1 := Step(s, e).state; NowWants(s, s1, s1.wants.filePrio, s1.wants.piecePrio, s1.wants.readers)
  {
    WantsStepShape(s, e);
    WantsStepKeeps(s, e);
    var s1 := Step(s, e).state;
    hide Inv, Step, Reason;
    forall i: nat
      ensures i in s1.wants.pending <==>
                i < s.cfg.grid.pieces && Idle(s.pc, i) && Reason(s, s1.wants.filePrio, s1.wants.piecePrio, s1.wants.readers, i)
    {
      PendingMeans(s1, i);
    }
  }

  lemma PendingMeans(s: State, i: nat)
    requires Inv(s)
    ensures i in s.wants.pending <==>
              i < s.cfg.grid.pieces && Idle(s.pc, i) && Reason(s, s.wants.filePrio, s.wants.piecePrio, s.wants.readers, i)
  {
    GoodPending(s, i);
    hide Inv, F.Lists;
  }

  /**
    How much a piece is wanted, from the files that list it, its own setting, and the readers: the piece a reader is at
    counts 5, the rest of its window 3.
  */
  lemma PriorityByReaders(s: State, i: nat, m: nat)
    requires Inv(s) && i < s.cfg.grid.pieces
    ensures i < |s.wants.piecePrio|
    ensures PurePriority(s.cfg, s.wants, i) <= m <==>
              && (forall k: nat :: k < |s.wants.filePrio| && F.Lists(s.cfg.geo, s.cfg.lengths, i, k) ==> s.wants.filePrio[k] <= m)
              && s.wants.piecePrio[i] <= m
              && (forall id :: id in s.wants.readers && s.wants.readers[id].0 <= i < s.wants.readers[id].1 ==>
                    (if s.wants.readers[id].0 == i then 5 else 3) <= m)
  {
    Basics(s);
    ReadersRaise(s, i, m);
    PriorityIsLargest(s.cfg, s.wants, i, m);
    hide Inv, PurePriority, F.Lists;
  }

  lemma ReadersRaise(s: State, i: nat, m: nat)
    requires Inv(s) && i < s.cfg.grid.pieces
    ensures (i in s.wants.now ==> 5 <= m) && (i in s.wants.readahead ==> 3 <= m) <==>
              forall id :: id in s.wants.readers && s.wants.readers[id].0 <= i < s.wants.readers[id].1 ==>
                (if s.wants.readers[id].0 == i then 5 else 3) <= m
  {
    hide Sound, NoneStuck, HashersCounted, CacheExactBut, Config.Valid;
    assert i in s.wants.now <==> ReadNow(s.wants.readers, i);
    assert i in s.wants.readahead <==> ReadAhead(s.wants.readers, i);
  }

  lemma FilePriorityEffect(s: State, k: nat, prio: nat)
    requires Inv(s) && k < |s.cfg.lengths|
    ensures Step(s, FilePriority(k, prio)).Next? && k < |s.wants.filePrio|
    ensures NowWants(s, Step(s, FilePriority(k, prio)).state, s.wants.filePrio[k := prio], s.wants.piecePrio, s.wants.readers)
  {
    FilePriorityShape(s, k, prio);
    WantsFollow(s, FilePriority(k, prio));
    hide Inv, Step, NowWants;
  }

  lemma FilePriorityShape(s: State, k: nat, prio: nat)
    requires Inv(s) && k < |s.cfg.lengths|
    ensures Step(s, FilePriority(k, prio)).Next? && k < |s.wants.filePrio|
    ensures var w := Step(s, FilePriority(k, prio)).state.wants;
            w.filePrio == s.wants.filePrio[k := prio] && w.piecePrio == s.wants.piecePrio && w.readers == s.wants.readers
  {
    Basics(s);
    hide Inv, Wanted, F.BeginPiece, F.EndPiece;
  }

  lemma PiecePriorityEffect(s: State, i: nat, prio: nat)
    requires Inv(s) && i < s.cfg.grid.pieces
    ensures Step(s, PiecePriority(i, prio)).Next? && i < |s.wants.piecePrio|
    ensures NowWants(s, Step(s, PiecePriority(i, prio)).state, s.wants.filePrio, s.wants.piecePrio[i := prio], s.wants.readers)
  {
    PiecePriorityShape(s, i, prio);
    WantsFollow(s, PiecePriority(i, prio));
    hide Inv, Step, NowWants;
  }

  lemma PiecePriorityShape(s: State, i: nat, prio: nat)
    requires Inv(s) && i < s.cfg.grid.pieces
    ensures Step(s, PiecePriority(i, prio)).Next? && i < |s.wants.piecePrio|
    ensures var w := Step(s, PiecePriority(i, prio)).state.wants;
            w.filePrio == s.wants.filePrio && w.piecePrio == s.wants.piecePrio[i := prio] && w.readers == s.wants.readers
  {
    Basics(s);
    hide Inv, Wanted;
  }

  /** Asking for a range raises what is below Normal in it to Normal; cancelling one sets all of it to None. */
  lemma RangesEffect(s: State, begin: nat, end: nat, j: nat)
    requires Inv(s) && end <= s.cfg.grid.pieces && j < s.cfg.grid.pieces
    ensures Step(s, Download(begin, end)).Next? && Step(s, CancelRange(begin, end)).Next?
    ensures var s1 := Step(s, Download(begin, end)).state;
            && NowWants(s, s1, s.wants.filePrio, s1.wants.piecePrio, s.wants.readers) && j < |s1.wants.piecePrio| == |s.wants.piecePrio|
            && s1.wants.piecePrio[j] == if begin <= j < end && s.wants.piecePrio[j] < 1 then 1 else s.wants.piecePrio[j]
    ensures var s1 := Step(s, CancelRange(begin, end)).state;
            && NowWants(s, s1, s.wants.filePrio, s1.wants.piecePrio, s.wants.readers) && j < |s1.wants.piecePrio| == |s.wants.piecePrio|
            && s1.wants.piecePrio[j] == if begin <= j < end then 0 else s.wants.piecePrio[j]
  {
    RangesShape(s, begin, end, j);
    WantsFollow(s, Download(begin, end));
    WantsFollow(s, CancelRange(begin, end));
    hide Inv, Step, NowWants;
  }

  lemma RangesShape(s: State, begin: nat, end: nat, j: nat)
    requires Inv(s) && end <= s.cfg.grid.pieces && j < s.cfg.grid.pieces
    ensures Step(s, Download(begin, end)).Next? && Step(s, CancelRange(begin, end)).Next?
    ensures var w := Step(s, Download(begin, end)).state.wants;
            && w.filePrio == s.wants.filePrio && w.readers == s.wants.readers && j < |w.piecePrio| == |s.wants.piecePrio|
            && w.piecePrio[j] == if begin <= j < end && s.wants.piecePrio[j] < 1 then 1 else s.wants.piecePrio[j]
    ensures var w := Step(s, CancelRange(begin, end)).state.wants;
            && w.filePrio == s.wants.filePrio && w.readers == s.wants.readers && j < |w.piecePrio| == |s.wants.piecePrio|
            && w.piecePrio[j] == if begin <= j < end then 0 else s.wants.piecePrio[j]
  {
    Basics(s);
    hide Inv, MapPiecePriorities;
    MapShape(s, begin, end, AtLeastNormal, j);
    MapShape(s, begin, end, NotWanted, j);
  }

  lemma MapShape(s: State, begin: nat, end: nat, f: nat -> nat, j: nat)
    requires j < |s.wants.piecePrio|
    ensures var w := MapPiecePriorities(s, begin, end, f).wants;
            && w.filePrio == s.wants.filePrio && w.readers == s.wants.readers && j < |w.piecePrio| == |s.wants.piecePrio|
            && w.piecePrio[j] == if begin <= j < end then f(s.wants.piecePrio[j]) else s.wants.piecePrio[j]
  {
    hide Wanted;
  }

  /** A reader that moves has as its window exactly the pieces that hold a byte it asks for. */
  lemma ReaderMovedEffect(s: State, id: nat, off: int, size: int, j: nat)
    requires Inv(s) && id in s.wants.readers
    ensures Step(s, ReaderMoved(id, off, size)).Next?
    ensures var s1 := Step(s, ReaderMoved(id, off, size)).state;
            && id in s1.wants.readers
            && NowWants(s, s1, s.wants.filePrio, s.wants.piecePrio, s.wants.readers[id := s1.wants.readers[id]])
            && (s1.wants.readers[id].0 <= j < s1.wants.readers[id].1 <==>
                  exists x: int :: off <= x < off + size && ByteOf(s, x, j))
  {
    ReaderMovedShape(s, id, off, size);
    Basics(s);
    WantsFollow(s, ReaderMoved(id, off, size));
    hide Inv, Step, NowWants, F.ByteRegionPieces;
    F.WindowIsExact(s.cfg.geo, off, size, j);
    WindowBytes(s, off, size, j);
  }

  /** Byte `x` of the torrent lies in piece `j`. */
  ghost predicate ByteOf(s: State, x: int, j: nat) {
    0 <= x < s.cfg.geo.length && j < s.cfg.geo.pieces && j * s.cfg.geo.pieceSize <= x < j * s.cfg.geo.pieceSize + s.cfg.geo.pieceSize
  }

  lemma WindowBytes(s: State, off: int, size: int, j: nat)
    requires s.cfg.geo.pieceSize > 0
    ensures j < s.cfg.geo.pieces && F.Meets(s.cfg.geo, if off < 0 then 0 else off, off + size, j) <==>
              exists x: int :: off <= x < off + size && ByteOf(s, x, j)
  {
    var d, o: nat := s.cfg.geo.pieceSize, if off < 0 then 0 else off;
    hide Arith.Quot, Arith.Rem;
    if j < s.cfg.geo.pieces && F.Meets(s.cfg.geo, o, off + size, j) {
      var x: nat :| o <= x < off + size && x < s.cfg.geo.length && Arith.Quot(x, d) == j;
      Arith.QuotRem(x, d);
      assert ByteOf(s, x, j);
    }
    if x: int :| off <= x < off + size && ByteOf(s, x, j) {
      Arith.DivUnique(x, d, j);
    }
  }

  lemma ReaderMovedShape(s: State, id: nat, off: int, size: int)
    requires Inv(s) && id in s.wants.readers
    ensures Step(s, ReaderMoved(id, off, size)).Next? && s.cfg.geo.pieceSize > 0
    ensures var w := Step(s, ReaderMoved(id, off, size)).state.wants;
            && w.filePrio == s.wants.filePrio && w.piecePrio == s.wants.piecePrio
            && w.readers == s.wants.readers[id := F.ByteRegionPieces(s.cfg.geo, off, size)]
  {
    Basics(s);
    hide Inv, Wanted, F.ByteRegionPieces, NowPieces, AheadPieces;
  }

  /** A new reader wants nothing yet; a removed one wants nothing any more. */
  lemma ReadersEffect(s: State, id: nat)
    requires Inv(s)
    ensures id !in s.wants.readers ==>
              && Step(s, AddReader(id)).Next?
              && NowWants(s, Step(s, AddReader(id)).state, s.wants.filePrio, s.wants.piecePrio, s.wants.readers[id := (0, 0)])
    ensures Step(s, RemoveReader(id)).Next?
    ensures NowWants(s, Step(s, RemoveReader(id)).state, s.wants.filePrio, s.wants.piecePrio, s.wants.readers - {id})
  {
    ReadersShape(s, id);
    hide Inv, Step, NowWants;
    if id !in s.wants.readers {
      WantsFollow(s, AddReader(id));
    }
    WantsFollow(s, RemoveReader(id));
  }

  lemma ReadersShape(s: State, id: nat)
    requires Inv(s)
    ensures id !in s.wants.readers ==>
              && Step(s, AddReader(id)).Next?
              && var w := Step(s, AddReader(id)).state.wants;
                 w.filePrio == s.wants.filePrio && w.piecePrio == s.wants.piecePrio && w.readers == s.wants.readers[id := (0, 0)]
    ensures Step(s, RemoveReader(id)).Next?
    ensures var w := Step(s, RemoveReader(id)).state.wants;
            w.filePrio == s.wants.filePrio && w.piecePrio == s.wants.piecePrio && w.readers == s.wants.readers - {id}
  {
    Basics(s);
    hide Inv, Wanted, NowPieces, AheadPieces;
  }

  // ---------- switches ----------

  /** Allowing downloads, merging a specification and the other torrents' hashers set what they say, and nothing else. */
  lemma SwitchesEffect(s: State, others: nat, disallow: bool)
    requires Inv(s) && s.pc.active + others <= s.cfg.cpus
    ensures Step(s, AllowDownload) == Next(s.(disallowed := false))
    ensures Step(s, MergeSpec(disallow)) == Next(s.(disallowed := disallow))
    ensures Step(s, OtherHashers(others)) == Next(s.(others := others))
  {
    Basics(s);
    hide Inv, HashStep, WantsStep;
  }
}

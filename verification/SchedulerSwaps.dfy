/** Two peers with equal claims can take one chunk from each other without end. */
module SchedulerSwaps {
  import opened Outcomes
  import opened Ledger
  import opened Grids
  import opened Scheduler
  import opened SchedulerInvariants
  import opened SchedulerSafety
  import opened SchedulerTheorems
  import opened SchedulerBalance

  lemma UsefulStays(s: State, p: PeerId, pull: Pull, k: PeerId)
    requires Core(s) && Grantable(s, p, pull.req) && k in s.book.peers
    requires pull.req in s.book.owner && s.book.owner[pull.req] != p && MaySteal(s.book, p, s.book.owner[pull.req])
    ensures TryPull(s, p, pull).Done?
    ensures var b := TryPull(s, p, pull).value.0; k in b.peers && b.peers[k].lastUseful == s.book.peers[k].lastUseful
  {
    var r := pull.req;
    TakenAway(s, p, r);
    CancelRequestEffect(s.book, r, k);
    hide Core, Sound, CancelRequest, MakeRequest, MayRequest, Grantable, MaySteal, TryPull;
    MadeUseful(s.(book := CancelRequest(s.book, r).value), p, r, pull.limit, k);
    Steals(s, p, pull);
  }

  lemma MadeUseful(s: State, p: PeerId, r: Req, limit: int, k: PeerId)
    requires Grantable(s, p, r) && k in s.book.peers
    ensures MakeRequest(s, p, r, limit).Done?
    ensures var b := MakeRequest(s, p, r, limit).value.0; k in b.peers && b.peers[k].lastUseful == s.book.peers[k].lastUseful
  {
    hide MayRequest;
  }

  /**
    The one kind of steal that leaves the sum of squared loads as it was, a swap of loads that differ by one, can be
    undone at once exactly when both peers were last useful at the same time.
  */
  lemma SwapMayReturn(s: State, p: PeerId, pull: Pull, ps: set<PeerId>)
    requires Core(s) && Grantable(s, p, pull.req)
    requires pull.req in s.book.owner && s.book.owner[pull.req] != p
    requires MaySteal(s.book, p, s.book.owner[pull.req]) && ps == {p, s.book.owner[pull.req]}
    requires TryPull(s, p, pull).Done? && Squares(TryPull(s, p, pull).value.0, ps) == Squares(s.book, ps)
    ensures var b, b1, q := s.book, TryPull(s, p, pull).value.0, s.book.owner[pull.req];
            MaySteal(b1, q, p) <==> b.peers[p].lastUseful == b.peers[q].lastUseful
  {
    var q := s.book.owner[pull.req];
    hide Core, TryPull, Grantable, Squares;
    StealEvensLoad(s, p, pull, ps);
    UsefulStays(s, p, pull, p);
    UsefulStays(s, p, pull, q);
    hide Load;
    Undone(s.book, TryPull(s, p, pull).value.0, p, q);
  }

  lemma Undone(b: Book, b1: Book, p: PeerId, q: PeerId)
    requires p in b.peers && q in b.peers && p in b1.peers && q in b1.peers && MaySteal(b, p, q)
    requires Load(b, q) == Load(b, p) + 1 && Load(b1, p) == Load(b, q) && Load(b1, q) == Load(b, p)
    requires b1.peers[p].lastUseful == b.peers[p].lastUseful && b1.peers[q].lastUseful == b.peers[q].lastUseful
    ensures MaySteal(b1, q, p) <==> b.peers[p].lastUseful == b.peers[q].lastUseful
  {
    hide Load;
  }

  // ---------- the run ----------

  function AskOf(p: PeerId, r: Req): Event {
    UpdateRequests(p, {0}, true, [Pull(r, 10, true)], 10)
  }

  /** An open, unchoked peer that has the first piece and does not answer cancels. */
  ghost predicate Willing(c: Peer) {
    c.active && !c.closed && !c.choking && !c.acks && 0 in c.has && c.cancelled == {}
  }

  /** A chunk of a wanted piece, at hand for asking. */
  ghost predicate Open(s: State, r: Req) {
    && !s.closed && !s.disallowed && 0 in s.wants.pending && r !in s.pc.dirty
    && s.cfg.grid.IsChunk(r) && s.cfg.grid.PieceOf(r) == 0
  }

  /** `q` has the chunk requested, and nothing else; `p`, which was useful no earlier and no later, has nothing. */
  ghost predicate Contested(s: State, p: PeerId, q: PeerId, r: Req) {
    && Inv(s) && Open(s, r) && p != q && p in s.book.peers && q in s.book.peers
    && Willing(s.book.peers[p]) && Willing(s.book.peers[q])
    && s.book.peers[p].requests == {} && s.book.peers[q].requests == {r} && s.book.peers[p].lastUseful == s.book.peers[q].lastUseful
  }

  lemma MayAskFor(s: State, p: PeerId, r: Req)
    requires Inv(s) && Open(s, r) && p in s.book.peers && Willing(s.book.peers[p])
    ensures Desired(s, p, {0}, r) && Grantable(s, p, r)
  {
    DesiredIsGrantable(s, p, {0}, r);
  }

  /** One update in which one chunk is asked for is one round of the loop. */
  lemma AskIsOnePull(s: State, p: PeerId, r: Req)
    requires Inv(s) && Open(s, r) && p in s.book.peers && Willing(s.book.peers[p]) && s.book.peers[p].requests == {}
    ensures TryPull(s, p, Pull(r, 10, true)).Done?
    ensures StepsTo(s, AskOf(p, r), s.(book := TryPull(s, p, Pull(r, 10, true)).value.0))
  {
    var pull := Pull(r, 10, true);
    MayAskFor(s, p, r);
    TryPullSafe(s, p, pull);
    StepKeeps(s, AskOf(p, r));
    AskRuns(s, p, r);
    hide Inv, Core, Step, TryPull, ApplyPulls, Grantable, Desired;
    PullsOnce(s, p, pull);
  }

  lemma PullsOnce(s: State, p: PeerId, pull: Pull)
    requires p in s.book.peers && s.book.peers[p].requests == {} == s.book.peers[p].cancelled && TryPull(s, p, pull).Done?
    ensures ApplyPulls(s, p, [pull], 10) == Done(s.(book := TryPull(s, p, pull).value.0))
  {
    var s1 := s.(book := TryPull(s, p, pull).value.0);
    PullUnfolds(s, p, [pull], 10);
    PullUnfolds(s1, p, [], 10);
    hide TryPull, ApplyPulls;
    assert [pull][1..] == [];
  }

  lemma AskRuns(s: State, p: PeerId, r: Req)
    requires s.cfg.geo.pieceSize > 0 && s.cfg.geo.chunkSize > 0 && WellSized(s.cfg, s.wants)
    requires Open(s, r) && p in s.book.peers && !s.book.peers[p].closed && Desired(s, p, {0}, r)
    ensures Step(s, AskOf(p, r)) == Lift(ApplyPulls(s, p, [Pull(r, 10, true)], 10))
  {
    hide ApplyPulls, Desired;
  }

  /** The holder's entry and the taker's after the chunk has changed hands. */
  lemma Taken(s: State, p: PeerId, q: PeerId, r: Req)
    requires Contested(s, p, q, r)
    ensures TryPull(s, p, Pull(r, 10, true)).Done?
    ensures var b, b1 := s.book, TryPull(s, p, Pull(r, 10, true)).value.0;
            && p in b1.peers && q in b1.peers
            && b1.peers[q] == b.peers[q].(requests := {})
            && b1.peers[p] == b.peers[p].(requests := {r}, expected := b1.peers[p].expected)
  {
    HeldBy(s, p, q, r);
    hide Inv, Sound, CancelRequest, MayRequest, MakeRequest, TryPull;
    StillGrantable(s, p, r);
    CancelRequestEffect(s.book, r, q);
    assert s.book.peers[q].requests - {r} == {};
    Requested(s.(book := CancelRequest(s.book, r).value), p, r);
    Steals(s, p, Pull(r, 10, true));
  }

  lemma HeldBy(s: State, p: PeerId, q: PeerId, r: Req)
    requires Contested(s, p, q, r)
    ensures Sound(s.book) && Grantable(s, p, r) && r in s.book.owner && s.book.owner[r] == q
  {
    MayAskFor(s, p, r);
  }

  lemma Requested(s: State, p: PeerId, r: Req)
    requires Grantable(s, p, r) && s.book.peers[p].requests == {}
    ensures MakeRequest(s, p, r, 10) == Done((AddRequest(s.book, p, r), false))
  {
    hide MayRequest;
  }

  /** The peer without the chunk takes it, and the two have changed places. */
  lemma Swaps(s: State, p: PeerId, q: PeerId, r: Req) returns (s1: State)
    requires Contested(s, p, q, r)
    ensures StepsTo(s, AskOf(p, r), s1) && Contested(s1, q, p, r) && s1 == s.(book := s1.book)
  {
    AskIsOnePull(s, p, r);
    Taken(s, p, q, r);
    s1 := s.(book := TryPull(s, p, Pull(r, 10, true)).value.0);
    hide Inv, TryPull, Step;
  }

  function Turns(p: PeerId, q: PeerId, r: Req, n: nat): seq<Event>
    decreases n
  {
    if n == 0 then [] else [AskOf(p, r)] + Turns(q, p, r, n - 1)
  }

  /** Who is without the chunk and who has it after `n` turns. */
  function After(p: PeerId, q: PeerId, n: nat): (PeerId, PeerId) {
    if n % 2 == 0 then (p, q) else (q, p)
  }

  /** From there the chunk changes hands at every one of any number of updates, and nothing else happens to any piece. */
  lemma {:induction false} SwapsWithoutEnd(s: State, p: PeerId, q: PeerId, r: Req, n: nat) returns (end: State)
    requires Contested(s, p, q, r)
    ensures Reaches(s, Turns(p, q, r, n), end) && end == s.(book := end.book)
    ensures Contested(end, After(p, q, n).0, After(p, q, n).1, r)
    decreases n
  {
    hide Contested, StepsTo, Reaches, After, Inv;
    if n == 0 {
      NoTurn(p, q);
      end := s;
      ContestedIsGood(s, p, q, r);
      ReachesItself(s);
    } else {
      var s1 := Swaps(s, p, q, r);
      end := SwapsWithoutEnd(s1, q, p, r, n - 1);
      OneTurn(p, q, n);
      ReachesFrom(s, AskOf(p, r), s1, Turns(q, p, r, n - 1), end);
    }
  }

  lemma NoTurn(p: PeerId, q: PeerId)
    ensures After(p, q, 0) == (p, q)
  {
  }

  lemma OneTurn(p: PeerId, q: PeerId, n: nat)
    requires n > 0
    ensures After(p, q, n) == After(q, p, n - 1)
  {
  }

  // ---------- such a state is reached ----------

  function Plain(choking: bool, has: set<nat>): Peer {
    Peer(false, false, {}, true, false, choking, has, {}, {}, map[], 0)
  }

  lemma ComesIn(s: State, p: PeerId)
    requires Inv(s) && p !in s.book.peers && p !in s.pc.writing && !s.closed
    ensures StepsTo(s, OfPeer(p, Joins(false, false, {})), SetPeer(s, p, Plain(true, {}))) && Inv(SetPeer(s, p, Plain(true, {})))
  {
    StepKeeps(s, OfPeer(p, Joins(false, false, {})));
  }

  /** A peer whose entry is `c` tells something; its entry becomes `d`. */
  lemma Says(s: State, p: PeerId, c: Peer, e: PeerEvent, d: Peer)
    requires Inv(SetPeer(s, p, c)) && !c.closed && !s.closed && p !in s.pc.writing
    requires (e.Has? && d == c.(has := e.has)) || (e.Unchokes? && d == c.(choking := false))
    ensures StepsTo(SetPeer(s, p, c), OfPeer(p, e), SetPeer(s, p, d)) && Inv(SetPeer(s, p, d))
  {
    StepKeeps(SetPeer(s, p, c), OfPeer(p, e));
    SaysStep(s, p, c, e, d);
    hide Inv, PeerStep, SetPeer;
  }

  lemma SaysStep(s: State, p: PeerId, c: Peer, e: PeerEvent, d: Peer)
    requires !c.closed && !s.closed && p !in s.pc.writing
    requires (e.Has? && d == c.(has := e.has)) || (e.Unchokes? && d == c.(choking := false))
    ensures PeerStep(SetPeer(s, p, c), p, e) == Next(SetPeer(s, p, d))
  {
    UpdateTwice(s.book.peers, p, c, d);
  }

  /** A peer joins, tells that it has the first piece, and unchokes. */
  lemma Arrives(s: State, p: PeerId) returns (s1: State, s2: State, s3: State)
    requires Inv(s) && p !in s.book.peers && p !in s.pc.writing && !s.closed
    ensures StepsTo(s, OfPeer(p, Joins(false, false, {})), s1) && StepsTo(s1, OfPeer(p, Has({0})), s2)
    ensures StepsTo(s2, OfPeer(p, Unchokes), s3) && Inv(s3)
    ensures s3 == SetPeer(s, p, Plain(false, {0}))
  {
    hide Inv, StepsTo, SetPeer;
    ComesIn(s, p);
    s1 := SetPeer(s, p, Plain(true, {}));
    Says(s, p, Plain(true, {}), Has({0}), Plain(true, {0}));
    s2 := SetPeer(s, p, Plain(true, {0}));
    Says(s, p, Plain(true, {0}), Unchokes, Plain(false, {0}));
    s3 := SetPeer(s, p, Plain(false, {0}));
  }

  lemma ArrivesIn(s: State, p: PeerId, es: seq<Event>, end: State, s1: State, s2: State, s3: State)
    requires StepsTo(s, OfPeer(p, Joins(false, false, {})), s1) && StepsTo(s1, OfPeer(p, Has({0})), s2)
    requires StepsTo(s2, OfPeer(p, Unchokes), s3) && Reaches(s3, es, end)
    ensures Reaches(s, [OfPeer(p, Joins(false, false, {}))] + ([OfPeer(p, Has({0}))] + ([OfPeer(p, Unchokes)] + es)), end)
  {
    hide StepsTo, Reaches;
    ReachesFrom(s2, OfPeer(p, Unchokes), s3, es, end);
    ReachesFrom(s1, OfPeer(p, Has({0})), s2, [OfPeer(p, Unchokes)] + es, end);
    ReachesFrom(s, OfPeer(p, Joins(false, false, {})), s1, [OfPeer(p, Has({0}))] + ([OfPeer(p, Unchokes)] + es), end);
  }

  /** With both peers there and the piece asked for, the first asks for the chunk. */
  lemma ThenAsks(s: State, r: Req) returns (s1: State, s2: State)
    requires Inv(s) && s.pc == Pieces({}, map[], map[], {}, {}, {}, {}, 0) && s.cfg.grid.pieces > 0 && !s.closed && !s.disallowed
    requires s.book == Book(map[1 := Plain(false, {0}), 2 := Plain(false, {0})], map[])
    requires s.cfg.grid.IsChunk(r) && s.cfg.grid.PieceOf(r) == 0
    ensures StepsTo(s, PiecePriority(0, PRIORITY_NORMAL), s1) && StepsTo(s1, AskOf(1, r), s2) && Contested(s2, 2, 1, r)
  {
    s1 := PieceAsked(s);
    AskIsOnePull(s1, 1, r);
    MayAskFor(s1, 1, r);
    s2 := s1.(book := TryPull(s1, 1, Pull(r, 10, true)).value.0);
    FirstTaken(s1, r);
    assert Inv(s2);
    hide Inv, TryPull, Step;
  }

  lemma FirstTaken(s: State, r: Req)
    requires s.book == Book(map[1 := Plain(false, {0}), 2 := Plain(false, {0})], map[]) && MayRequest(s, 1, r)
    ensures TryPull(s, 1, Pull(r, 10, true)) ==
            Done((Book(map[1 := Plain(false, {0}).(requests := {r}, expected := map[r := 1]), 2 := Plain(false, {0})], map[r := 1]), true))
  {
    hide MayRequest;
    var before, after := map[1 := Plain(false, {0}), 2 := Plain(false, {0})], Plain(false, {0}).(requests := {r}, expected := map[r := 1]);
    assert {} + {r} == {r} && map[][r := 1] == map[r := 1];
    assert before[1 := after] == map[1 := after, 2 := Plain(false, {0})];
    assert AddRequest(s.book, 1, r) == Book(before[1 := after], map[r := 1]);
  }

  lemma AsksIn(s: State, r: Req) returns (es: seq<Event>, end: State)
    requires Inv(s) && s.pc == Pieces({}, map[], map[], {}, {}, {}, {}, 0) && s.cfg.grid.pieces > 0 && !s.closed && !s.disallowed
    requires s.book == Book(map[1 := Plain(false, {0}), 2 := Plain(false, {0})], map[])
    requires s.cfg.grid.IsChunk(r) && s.cfg.grid.PieceOf(r) == 0
    ensures Reaches(s, es, end) && Contested(end, 2, 1, r)
  {
    hide Inv, StepsTo, Reaches, Contested;
    var s1, s2 := ThenAsks(s, r);
    end := s2;
    ContestedIsGood(end, 2, 1, r);
    ReachesItself(end);
    ReachesFrom(s1, AskOf(1, r), end, [], end);
    es := [AskOf(1, r)] + [];
    ReachesFrom(s, PiecePriority(0, PRIORITY_NORMAL), s1, es, end);
    es := [PiecePriority(0, PRIORITY_NORMAL)] + es;
  }

  /** A run from the start of a torrent to a chunk that two peers can take from each other without end. */
  lemma ContestedIsReached() returns (s0: State, es: seq<Event>, s: State, r: Req)
    ensures Init(s0) && Reaches(s0, es, s) && Contested(s, 2, 1, r)
  {
    s0 := StartAllowed();
    InitFacts(s0);
    FirstChunk(s0.cfg.grid, 0);
    r := s0.cfg.grid.First(0);
    hide Init, Inv, StepsTo, Reaches, Contested;
    var a1, a2, a3 := Arrives(s0, 1);
    var b1, b2, b3 := Arrives(a3, 2);
    assert b3.book.peers == map[1 := Plain(false, {0}), 2 := Plain(false, {0})];
    es, s := AsksIn(b3, r);
    ArrivesIn(a3, 2, es, s, b1, b2, b3);
    es := [OfPeer(2, Joins(false, false, {}))] + ([OfPeer(2, Has({0}))] + ([OfPeer(2, Unchokes)] + es));
    ArrivesIn(s0, 1, es, s, a1, a2, a3);
    es := [OfPeer(1, Joins(false, false, {}))] + ([OfPeer(1, Has({0}))] + ([OfPeer(1, Unchokes)] + es));
  }

  lemma ContestedIsGood(s: State, p: PeerId, q: PeerId, r: Req)
    requires Contested(s, p, q, r)
    ensures Inv(s)
  {
  }
}

/**
  The request ledger of a torrent: which peer each chunk is requested from (`owner`, the
  torrent's side) and what each peer has outstanding, cancelled and still to be expected.
  Every function below is one of the peer's or torrent's bookkeeping operations, with its
  explicit panics.
*/
module Ledger {
  import opened Collections
  import opened Outcomes

  type PeerId = nat
  type Req = nat

  datatype Peer = Peer(
    fast: bool,             // fast extension negotiated
    acks: bool,             // the remote answers a cancel with a reject
    allowedFast: set<nat>,  // pieces requestable while choked
    active: bool,           // still among the torrent's connections
    closed: bool,
    choking: bool,          // the remote is choking us
    has: set<nat>,          // pieces the remote definitely has
    requests: set<Req>,
    cancelled: set<Req>,
    expected: map<Req, nat>, // validReceiveChunks
    lastUseful: int)

  datatype RawBook = Book(peers: map<PeerId, Peer>, owner: map<Req, PeerId>)

  /** A recorded owner is a peer object that exists, whether or not it is still connected. */
  type Book = b: RawBook | forall r :: r in b.owner ==> b.owner[r] in b.peers witness Book(map[], map[])

  function With(b: Book, p: PeerId, c: Peer): Book {
    b.(peers := b.peers[p := c])
  }

  // ---------- operations ----------

  function DeleteRequest(b: Book, p: PeerId, r: Req): (o: Outcome<(Book, bool)>)
    requires p in b.peers
    ensures o.Done? ==> o.value.0.peers.Keys == b.peers.Keys
  {
    var c := b.peers[p];
    if r !in c.requests then Done((b, false))
    else if r !in b.owner || b.owner[r] != p then Panic
    else Done((Book(b.peers[p := c.(requests := c.requests - {r})], b.owner - {r}), true))
  }

  function Cancel(b: Book, p: PeerId, r: Req): (o: Outcome<Book>)
    requires p in b.peers
    ensures o.Done? ==> o.value.peers.Keys == b.peers.Keys
  {
    var (b1, existed) :- DeleteRequest(b, p, r);
    if !existed then Panic
    else
      var c := b1.peers[p];
      if !c.acks then Done(b1)
      else if r in c.cancelled then Panic
      else Done(With(b1, p, c.(cancelled := c.cancelled + {r})))
  }

  function CancelRequest(b: Book, r: Req): (o: Outcome<Book>)
    ensures o.Done? ==> o.value.peers.Keys == b.peers.Keys
  {
    if r !in b.owner then Done(b)
    else
      var b1 :- Cancel(b, b.owner[r], r);
      if r in b1.owner then Panic else Done(b1)
  }

  function DecExpected(b: Book, p: PeerId, r: Req): (o: Outcome<Book>)
    requires p in b.peers
    ensures o.Done? ==> o.value.peers.Keys == b.peers.Keys
  {
    var c := b.peers[p];
    if r !in c.expected || c.expected[r] == 0 then Panic
    else Done(With(b, p, c.(expected := Lowered(c.expected, r))))
  }

  function Lowered(counts: map<Req, nat>, r: Req): map<Req, nat>
    requires r in counts && counts[r] >= 1
  {
    if counts[r] == 1 then counts - {r} else counts[r := counts[r] - 1]
  }

  /** Deletes an outstanding request, or else forgets a cancelled one; says whether either was there. */
  function Settle(b: Book, p: PeerId, r: Req): (o: Outcome<(Book, bool)>)
    requires p in b.peers
    ensures o.Done? ==> o.value.0.peers.Keys == b.peers.Keys
  {
    var (b1, existed) :- DeleteRequest(b, p, r);
    var c := b1.peers[p];
    if existed then Done((b1, true))
    else if r in c.cancelled then Done((With(b1, p, c.(cancelled := c.cancelled - {r})), true))
    else Done((b1, false))
  }

  function RemoteRejected(b: Book, p: PeerId, r: Req): (o: Outcome<(Book, bool)>)
    requires p in b.peers
    ensures o.Done? ==> o.value.0.peers.Keys == b.peers.Keys
  {
    var (b1, known) :- Settle(b, p, r);
    if !known then Done((b1, false))
    else
      var b2 :- DecExpected(b1, p, r);
      Done((b2, true))
  }

  /** The ledger's part of receiving a chunk that was expected. */
  function TakeChunk(b: Book, p: PeerId, r: Req): (o: Outcome<(Book, bool)>)
    requires p in b.peers
    ensures o.Done? ==> o.value.0.peers.Keys == b.peers.Keys
  {
    var b1 :- DecExpected(b, p, r);
    Settle(b1, p, r)
  }

  /** The unconditional tail of `request`: whoever was recorded for `r` is overwritten. */
  function AddRequest(b: Book, p: PeerId, r: Req): Book
    requires p in b.peers
  {
    var c := b.peers[p];
    var count := if r in c.expected then c.expected[r] else 0;
    Book(b.peers[p := c.(requests := c.requests + {r}, expected := c.expected[r := count + 1])],
         b.owner[r := p])
  }

  /** What deleting every outstanding request of `p` leaves. */
  function WithoutRequests(b: Book, p: PeerId): Book
    requires p in b.peers
  {
    Book(b.peers[p := b.peers[p].(requests := {})], map r | r in b.owner && b.owner[r] != p :: b.owner[r])
  }

  /** What cancelling every request in `rs`, whoever holds it, leaves. */
  function WithoutChunks(b: Book, rs: set<Req>): Book {
    Book(map p | p in b.peers :: CancelledAt(b.peers[p], rs), b.owner - rs)
  }

  function CancelledAt(c: Peer, rs: set<Req>): Peer {
    c.(requests := c.requests - rs,
       cancelled := if c.acks then c.cancelled + (c.requests * rs) else c.cancelled)
  }

  function CancelEach(b: Book, p: PeerId, rs: seq<Req>): (o: Outcome<Book>)
    requires p in b.peers
    ensures o.Done? ==> o.value.peers.Keys == b.peers.Keys
    decreases |rs|
  {
    if rs == [] then Done(b)
    else
      var b1 :- Cancel(b, p, rs[0]);
      CancelEach(b1, p, rs[1..])
  }

  /** `cancelAllRequests` over a snapshot of the peer's requests, with its closing check. */
  function CancelAllRequests(b: Book, p: PeerId, rs: seq<Req>): (o: Outcome<Book>)
    requires p in b.peers
    ensures o.Done? ==> o.value.peers.Keys == b.peers.Keys
  {
    var b1 :- CancelEach(b, p, rs);
    if b1.peers[p].requests != {} then Panic else Done(b1)
  }

  /** The snapshots in the order connections are visited. */
  type Visits = seq<(PeerId, seq<Req>)>

  predicate VisitsPeers(b: Book, visits: Visits) {
    forall k :: 0 <= k < |visits| ==> visits[k].0 in b.peers
  }

  function CancelEverywhere(b: Book, visits: Visits): (o: Outcome<Book>)
    requires VisitsPeers(b, visits)
    decreases |visits|
  {
    if visits == [] then Done(b)
    else
      var b1 :- CancelAllRequests(b, visits[0].0, visits[0].1);
      CancelEverywhere(b1, visits[1..])
  }

  /** Each connection is visited once, with its outstanding requests in some order. */
  predicate Snapshots(b: Book, visits: Visits) {
    && VisitsPeers(b, visits)
    && (forall k :: 0 <= k < |visits| ==> IsSnapshot(b, visits[k]))
    && (forall j, k :: 0 <= j < k < |visits| ==> visits[j].0 != visits[k].0)
  }

  predicate IsSnapshot(b: Book, visit: (PeerId, seq<Req>))
    requires visit.0 in b.peers
  {
    NoDup(visit.1) && Elements(visit.1) == b.peers[visit.0].requests
  }

  /** The peers visited are those still among the torrent's connections. */
  predicate VisitsActive(b: Book, visits: Visits) {
    && Snapshots(b, visits)
    && (forall k :: 0 <= k < |visits| ==> b.peers[visits[k].0].active)
    && (forall p :: p in b.peers && b.peers[p].active ==> exists k :: 0 <= k < |visits| && visits[k].0 == p)
  }

  // ---------- the invariant ----------

  ghost predicate PeerOk(c: Peer) {
    && c.requests !! c.cancelled
    && (forall r :: r in c.requests || r in c.cancelled ==> r in c.expected)
    && (forall r :: r in c.expected ==> c.expected[r] >= 1)
    && (c.closed || c.active)
    && (!c.active ==> c.requests == {})
    && (!c.acks ==> c.cancelled == {})
  }

  ghost predicate OwnersHold(b: Book) {
    forall r :: r in b.owner ==> r in b.peers[b.owner[r]].requests
  }

  ghost predicate HoldersOwn(b: Book) {
    forall p, r :: p in b.peers && r in b.peers[p].requests ==> r in b.owner && b.owner[r] == p
  }

  ghost predicate PeersOk(b: Book) {
    forall p :: p in b.peers ==> PeerOk(b.peers[p])
  }

  /** Every recorded owner was already recorded: nothing was newly requested. */
  ghost predicate OwnersKept(b: Book, b1: Book) {
    forall r :: r in b1.owner ==> r in b.owner && b1.owner[r] == b.owner[r]
  }

  ghost predicate Sound(b: Book) {
    OwnersHold(b) && HoldersOwn(b) && PeersOk(b)
  }

  /** Torrent-side and peer-side records mirror each other, and nothing is both outstanding and cancelled. */
  lemma RecordsMirror(b: Book, p: PeerId, r: Req)
    requires Sound(b) && p in b.peers
    ensures r in b.peers[p].requests <==> r in b.owner && b.owner[r] == p
    ensures !(r in b.peers[p].requests && r in b.peers[p].cancelled)
  {
    assert PeerOk(b.peers[p]);
  }

  /** How often a chunk may still legitimately arrive, against how often it is outstanding or cancelled. */
  lemma ExpectedCoversOutstanding(b: Book, p: PeerId, r: Req)
    requires Sound(b) && p in b.peers
    ensures var c := b.peers[p];
            (if r in c.requests then 1 else 0) + (if r in c.cancelled then 1 else 0)
            <= if r in c.expected then c.expected[r] else 0
  {
    assert PeerOk(b.peers[p]);
  }

  // ---------- every operation keeps it, and no panic is reachable ----------

  /** What one peer's entry may change without touching anything else. */
  lemma ReplacePeer(b: Book, p: PeerId, c: Peer)
    requires Sound(b) && p in b.peers && PeerOk(c) && c.requests == b.peers[p].requests
    ensures Sound(With(b, p, c))
  {
  }

  lemma UsefulKeeps(b: Book, p: PeerId, now: int)
    requires Sound(b) && p in b.peers
    ensures Sound(With(b, p, b.peers[p].(lastUseful := now)))
  {
    assert PeerOk(b.peers[p]);
    ReplacePeer(b, p, b.peers[p].(lastUseful := now));
  }

  /** Dropping one request from a peer together with its owner record. */
  lemma Forget(b: Book, p: PeerId, c: Peer, r: Req)
    requires Sound(b) && p in b.peers && PeerOk(c) && c.requests == b.peers[p].requests - {r}
    ensures Sound(Book(b.peers[p := c], if r in b.peers[p].requests then b.owner - {r} else b.owner))
  {
  }

  lemma FewerRequestsOk(c: Peer, r: Req)
    requires PeerOk(c)
    ensures PeerOk(c.(requests := c.requests - {r}))
  {
  }

  lemma DeleteRequestSafe(b: Book, p: PeerId, r: Req)
    requires Sound(b) && p in b.peers
    ensures DeleteRequest(b, p, r).Done?
    ensures var (b1, existed) := DeleteRequest(b, p, r).value;
            && Sound(b1) && existed == (r in b.peers[p].requests)
            && (existed ==> r !in b1.owner) && (!existed ==> b1 == b)
  {
    var c := b.peers[p];
    assert PeerOk(c) && (r in c.requests ==> b.owner[r] == p);
    FewerRequestsOk(c, r);
    hide PeerOk;
    Forget(b, p, c.(requests := c.requests - {r}), r);
  }

  lemma CancelSafe(b: Book, p: PeerId, r: Req)
    requires Sound(b) && p in b.peers && r in b.peers[p].requests
    ensures Cancel(b, p, r).Done?
    ensures var b1 := Cancel(b, p, r).value;
            Sound(b1) && b1.owner == b.owner - {r}
  {
    DeleteRequestSafe(b, p, r);
    var b1 := DeleteRequest(b, p, r).value.0;
    var c := b1.peers[p];
    assert PeerOk(b.peers[p]) && PeerOk(c);
    if c.acks {
      ReplacePeer(b1, p, c.(cancelled := c.cancelled + {r}));
    }
  }

  lemma CancelRequestSafe(b: Book, r: Req)
    requires Sound(b)
    ensures CancelRequest(b, r).Done?
    ensures var b1 := CancelRequest(b, r).value;
            Sound(b1) && b1.owner == b.owner - {r}
  {
    if r in b.owner {
      CancelSafe(b, b.owner[r], r);
    }
  }

  lemma SettleSafe(b: Book, p: PeerId, r: Req)
    requires Sound(b) && p in b.peers
    ensures Settle(b, p, r).Done?
    ensures var (b1, known) := Settle(b, p, r).value;
            && Sound(b1)
            && known == (r in b.peers[p].requests || r in b.peers[p].cancelled)
            && (r in b1.owner ==> b1.owner[r] != p)
            && b1.peers[p].expected == b.peers[p].expected
            && r !in b1.peers[p].requests && r !in b1.peers[p].cancelled
  {
    DeleteRequestSafe(b, p, r);
    var (b1, existed) := DeleteRequest(b, p, r).value;
    var c := b1.peers[p];
    assert PeerOk(b.peers[p]) && PeerOk(c);
    if !existed && r in c.cancelled {
      ReplacePeer(b1, p, c.(cancelled := c.cancelled - {r}));
    }
  }

  /** An expected-chunk counter may be decremented once nothing outstanding needs it. */
  lemma DecExpectedSafe(b: Book, p: PeerId, r: Req)
    requires Sound(b) && p in b.peers && r in b.peers[p].expected
    requires r !in b.peers[p].requests && r !in b.peers[p].cancelled
    ensures DecExpected(b, p, r).Done? && Sound(DecExpected(b, p, r).value)
    ensures DecExpected(b, p, r).value.owner == b.owner
  {
    assert PeerOk(b.peers[p]);
    ReplacePeer(b, p, DecExpected(b, p, r).value.peers[p]);
  }

  lemma RemoteRejectedSafe(b: Book, p: PeerId, r: Req)
    requires Sound(b) && p in b.peers
    ensures RemoteRejected(b, p, r).Done?
    ensures var (b1, ok) := RemoteRejected(b, p, r).value;
            && Sound(b1)
            && ok == (r in b.peers[p].requests || r in b.peers[p].cancelled)
            && OwnersKept(b, b1)
  {
    assert PeerOk(b.peers[p]);
    SettleSafe(b, p, r);
    var (b1, known) := Settle(b, p, r).value;
    if known {
      DecExpectedSafe(b1, p, r);
    }
  }

  lemma UpdateTwice<K, V>(m: map<K, V>, k: K, v: V, w: V)
    ensures m[k := v][k := w] == m[k := w]
  {
  }

  /** One peer's entry after a chunk it was expected to send has arrived. */
  function Taken(c: Peer, r: Req): Peer
    requires r in c.expected && c.expected[r] >= 1
  {
    c.(requests := c.requests - {r}, cancelled := c.cancelled - {r}, expected := Lowered(c.expected, r))
  }

  lemma SettleEffect(b: Book, p: PeerId, r: Req)
    requires p in b.peers
    requires r in b.peers[p].requests ==> r in b.owner && b.owner[r] == p
    requires b.peers[p].requests !! b.peers[p].cancelled
    ensures var c := b.peers[p];
            var c1 := c.(requests := c.requests - {r}, cancelled := c.cancelled - {r});
            Settle(b, p, r) ==
            Done((Book(b.peers[p := c1], if r in c.requests then b.owner - {r} else b.owner),
                  r in c.requests || r in c.cancelled))
  {
    var c := b.peers[p];
    if r in c.requests {
      assert c.cancelled - {r} == c.cancelled;
    } else {
      assert c.requests - {r} == c.requests;
      if r !in c.cancelled {
        assert c.cancelled - {r} == c.cancelled;
        assert b.peers[p := c] == b.peers;
      }
    }
  }

  /** Receiving decrements before it settles, so the invariant is broken in between: state the joint effect. */
  lemma TakeChunkEffect(b: Book, p: PeerId, r: Req)
    requires Sound(b) && p in b.peers && r in b.peers[p].expected
    ensures b.peers[p].expected[r] >= 1
    ensures var c := b.peers[p];
            TakeChunk(b, p, r) ==
            Done((Book(b.peers[p := Taken(c, r)], if r in c.requests then b.owner - {r} else b.owner),
                  r in c.requests || r in c.cancelled))
  {
    var c := b.peers[p];
    assert PeerOk(c);
    var b1 := DecExpected(b, p, r).value;
    SettleEffect(b1, p, r);
    UpdateTwice(b.peers, p, b1.peers[p], Taken(c, r));
  }

  lemma TakenOk(c: Peer, r: Req)
    requires PeerOk(c) && r in c.expected
    ensures PeerOk(Taken(c, r))
  {
  }

  lemma TakeChunkSafe(b: Book, p: PeerId, r: Req)
    requires Sound(b) && p in b.peers && r in b.peers[p].expected
    ensures TakeChunk(b, p, r).Done?
    ensures var (b1, intended) := TakeChunk(b, p, r).value;
            && Sound(b1)
            && intended == (r in b.peers[p].requests || r in b.peers[p].cancelled)
            && (r in b1.owner ==> b1.owner[r] != p)
  {
    var c := b.peers[p];
    assert PeerOk(c);
    TakeChunkEffect(b, p, r);
    assert PeerOk(Taken(c, r)) by { TakenOk(c, r); }
    Forget(b, p, Taken(c, r), r);
  }

  lemma AddRequestSafe(b: Book, p: PeerId, r: Req)
    requires Sound(b) && p in b.peers && r !in b.owner
    requires b.peers[p].active && r !in b.peers[p].cancelled
    ensures Sound(AddRequest(b, p, r))
  {
    assert PeerOk(b.peers[p]);
    assert PeerOk(AddRequest(b, p, r).peers[p]);
  }

  lemma WithoutRequestsSafe(b: Book, p: PeerId)
    requires Sound(b) && p in b.peers
    ensures Sound(WithoutRequests(b, p))
  {
    assert PeerOk(b.peers[p]);
    assert PeerOk(WithoutRequests(b, p).peers[p]);
  }

  lemma WithoutChunksSafe(b: Book, rs: set<Req>)
    requires Sound(b)
    ensures Sound(WithoutChunks(b, rs))
  {
    var b1 := WithoutChunks(b, rs);
    forall p | p in b1.peers ensures PeerOk(b1.peers[p]) {
      assert PeerOk(b.peers[p]);
    }
  }

  lemma CancelledAtOneMore(c: Peer, rs: set<Req>, r: Req)
    ensures r !in c.requests ==> CancelledAt(c, rs + {r}) == CancelledAt(c, rs)
    ensures r in c.requests && r !in rs ==>
              var c1 := CancelledAt(c, rs);
              CancelledAt(c, rs + {r}) == c1.(requests := c1.requests - {r},
                                              cancelled := if c.acks then c1.cancelled + {r} else c1.cancelled)
  {
    if r in c.requests {
      assert c.requests * (rs + {r}) == (c.requests * rs) + {r};
      assert c.requests - (rs + {r}) == (c.requests - rs) - {r};
    } else {
      assert c.requests * (rs + {r}) == c.requests * rs;
      assert c.requests - (rs + {r}) == c.requests - rs;
    }
  }

  /** One peer's entry after `cancelRequest`, whoever held the chunk. */
  lemma CancelRequestEffect(b: Book, r: Req, p: PeerId)
    requires Sound(b) && p in b.peers
    ensures CancelRequest(b, r).Done?
    ensures var b1, c := CancelRequest(b, r).value, b.peers[p];
            b1.peers[p] == if r in c.requests
                           then c.(requests := c.requests - {r}, cancelled := if c.acks then c.cancelled + {r} else c.cancelled)
                           else c
  {
    CancelRequestSafe(b, r);
  }

  lemma CancelOneMoreAt(b: Book, rs: set<Req>, r: Req, p: PeerId)
    requires Sound(b) && r !in rs && p in b.peers
    ensures CancelRequest(WithoutChunks(b, rs), r).Done?
    ensures CancelRequest(WithoutChunks(b, rs), r).value.peers[p] == CancelledAt(b.peers[p], rs + {r})
  {
    WithoutChunksSafe(b, rs);
    CancelRequestEffect(WithoutChunks(b, rs), r, p);
    CancelledAtOneMore(b.peers[p], rs, r);
  }

  lemma SameBook(b1: Book, b2: Book)
    requires b1.peers.Keys == b2.peers.Keys && b1.owner == b2.owner
    requires forall p :: p in b1.peers ==> b1.peers[p] == b2.peers[p]
    ensures b1 == b2
  {
    assert b1.peers == b2.peers;
  }

  lemma MinusTwice<K, V>(m: map<K, V>, a: set<K>, b: set<K>)
    ensures m - a - b == m - (a + b)
  {
  }

  lemma CancelOneMoreOwner(b: Book, rs: set<Req>, r: Req)
    requires Sound(b) && r !in rs
    ensures CancelRequest(WithoutChunks(b, rs), r).Done?
    ensures CancelRequest(WithoutChunks(b, rs), r).value.owner == WithoutChunks(b, rs + {r}).owner
  {
    WithoutChunksSafe(b, rs);
    CancelRequestSafe(WithoutChunks(b, rs), r);
    MinusTwice(b.owner, rs, {r});
  }

  /** Cancelling one chunk after a set of others is cancelling the larger set. */
  lemma CancelOneMore(b: Book, rs: set<Req>, r: Req)
    requires Sound(b) && r !in rs
    ensures CancelRequest(WithoutChunks(b, rs), r) == Done(WithoutChunks(b, rs + {r}))
  {
    CancelOneMoreOwner(b, rs, r);
    var b1, b2 := WithoutChunks(b, rs + {r}), CancelRequest(WithoutChunks(b, rs), r).value;
    forall p | p in b.peers ensures b2.peers[p] == b1.peers[p] {
      CancelOneMoreAt(b, rs, r, p);
    }
    SameBook(b2, b1);
  }

  // ---------- cancelling everything ----------

  lemma NothingCancelled(b: Book)
    ensures WithoutChunks(b, {}) == b
  {
    forall p | p in b.peers ensures CancelledAt(b.peers[p], {}) == b.peers[p] {
      assert b.peers[p].requests - {} == b.peers[p].requests && b.peers[p].requests * {} == {};
    }
    SameBook(WithoutChunks(b, {}), b);
  }

  lemma CancelledTwice(c: Peer, x: set<Req>, y: set<Req>)
    ensures CancelledAt(CancelledAt(c, x), y) == CancelledAt(c, x + y)
  {
    assert c.requests - x - y == c.requests - (x + y);
    assert c.cancelled + (c.requests * x) + ((c.requests - x) * y) == c.cancelled + (c.requests * (x + y));
  }

  lemma WithoutTwice(b: Book, x: set<Req>, y: set<Req>)
    ensures WithoutChunks(WithoutChunks(b, x), y) == WithoutChunks(b, x + y)
  {
    MinusTwice(b.owner, x, y);
    hide CancelledAt;
    forall p | p in b.peers ensures CancelledAt(CancelledAt(b.peers[p], x), y) == CancelledAt(b.peers[p], x + y) {
      CancelledTwice(b.peers[p], x, y);
    }
    SameBook(WithoutChunks(WithoutChunks(b, x), y), WithoutChunks(b, x + y));
  }

  lemma CancelIs(b: Book, p: PeerId, r: Req)
    requires Sound(b) && p in b.peers && r in b.peers[p].requests
    ensures Cancel(b, p, r) == Done(WithoutChunks(b, {r}))
  {
    HolderCancels(b, p, r);
    hide *;
    NothingCancelled(b);
    CancelOneMore(b, {}, r);
    assert {} + {r} == {r};
  }

  /** Cancelling by chunk is cancelling at the peer that has it requested. */
  lemma HolderCancels(b: Book, p: PeerId, r: Req)
    requires Sound(b) && p in b.peers && r in b.peers[p].requests
    ensures CancelRequest(b, r) == Cancel(b, p, r)
  {
    assert r in b.owner && b.owner[r] == p;
    hide Sound, Cancel;
    CancelSafe(b, p, r);
  }

  /** Cancelling requests of one peer one by one is cancelling the set of them, in whatever order. */
  lemma {:induction false} CancelEachIs(b: Book, p: PeerId, rs: seq<Req>)
    requires Sound(b) && p in b.peers && NoDup(rs) && Elements(rs) <= b.peers[p].requests
    ensures CancelEach(b, p, rs) == Done(WithoutChunks(b, Elements(rs)))
    decreases |rs|
  {
    if rs == [] {
      NothingCancelled(b);
      assert Elements(rs) == {};
    } else {
      var rest := rs[1..];
      SplitFirst(rs);
      CancelIs(b, p, rs[0]);
      WithoutChunksSafe(b, {rs[0]});
      var b1 := WithoutChunks(b, {rs[0]});
      hide Cancel, WithoutChunks, Sound, NoDup, Elements;
      OthersStay(b, p, rs[0], Elements(rest));
      CancelEachIs(b1, p, rest);
      WithoutTwice(b, {rs[0]}, Elements(rest));
    }
  }

  lemma SplitFirst(rs: seq<Req>)
    requires rs != [] && NoDup(rs)
    ensures NoDup(rs[1..]) && rs[0] !in Elements(rs[1..]) && Elements(rs) == {rs[0]} + Elements(rs[1..])
    ensures rs[0] in Elements(rs)
  {
    assert rs == [rs[0]] + rs[1..];
  }

  lemma OthersStay(b: Book, p: PeerId, r: Req, rest: set<Req>)
    requires p in b.peers && {r} + rest <= b.peers[p].requests && r !in rest
    ensures rest <= WithoutChunks(b, {r}).peers[p].requests
  {
  }

  /** `cancelAllRequests` reaches neither the panics of `cancel` nor the one of its closing check. */
  lemma CancelAllRequestsSafe(b: Book, p: PeerId, rs: seq<Req>)
    requires Sound(b) && p in b.peers && IsSnapshot(b, (p, rs))
    ensures CancelAllRequests(b, p, rs) == Done(WithoutChunks(b, b.peers[p].requests))
  {
    CancelEachIs(b, p, rs);
    hide CancelEach, Sound;
    assert WithoutChunks(b, b.peers[p].requests).peers[p].requests == {};
  }

  /** The requests that the visits together cancel. */
  ghost function Visited(visits: Visits): set<Req>
    decreases |visits|
  {
    if visits == [] then {} else Elements(visits[0].1) + Visited(visits[1..])
  }

  lemma OtherPeersStay(b: Book, p: PeerId, q: PeerId)
    requires Sound(b) && p in b.peers && q in b.peers && p != q
    ensures WithoutChunks(b, b.peers[p].requests).peers[q] == b.peers[q]
  {
    var c, rs := b.peers[q], b.peers[p].requests;
    assert c.requests * rs == {};
    assert c.requests - rs == c.requests;
  }

  lemma SnapshotsLater(b: Book, visits: Visits)
    requires Sound(b) && visits != [] && Snapshots(b, visits)
    ensures Snapshots(WithoutChunks(b, b.peers[visits[0].0].requests), visits[1..])
  {
    var p, rest := visits[0].0, visits[1..];
    var b1 := WithoutChunks(b, b.peers[p].requests);
    forall k | 0 <= k < |rest| ensures rest[k].0 in b1.peers && IsSnapshot(b1, rest[k]) {
      assert rest[k] == visits[k + 1];
      OtherPeersStay(b, p, rest[k].0);
    }
  }

  lemma {:induction false} CancelEverywhereIs(b: Book, visits: Visits)
    requires Sound(b) && Snapshots(b, visits)
    ensures CancelEverywhere(b, visits) == Done(WithoutChunks(b, Visited(visits)))
    decreases |visits|
  {
    if visits == [] {
      NothingCancelled(b);
    } else {
      var (p, rs) := visits[0];
      assert IsSnapshot(b, visits[0]);
      CancelAllRequestsSafe(b, p, rs);
      SnapshotsLater(b, visits);
      WithoutChunksSafe(b, b.peers[p].requests);
      hide CancelAllRequests, WithoutChunks, Sound, Snapshots;
      CancelEverywhereIs(WithoutChunks(b, b.peers[p].requests), visits[1..]);
      WithoutTwice(b, b.peers[p].requests, Visited(visits[1..]));
    }
  }

  lemma {:induction false} VisitedHas(visits: Visits, k: nat)
    requires k < |visits|
    ensures Elements(visits[k].1) <= Visited(visits)
    decreases |visits|
  {
    if k > 0 {
      VisitedHas(visits[1..], k - 1);
    }
  }

  /** What is left when every connection has cancelled all its requests. */
  function AllCancelled(b: Book): Book {
    Book(map p | p in b.peers :: CancelledAt(b.peers[p], b.peers[p].requests), map[])
  }

  lemma EverythingVisited(b: Book, visits: Visits)
    requires Sound(b) && VisitsActive(b, visits)
    ensures WithoutChunks(b, Visited(visits)) == AllCancelled(b)
  {
    forall p | p in b.peers ensures b.peers[p].requests <= Visited(visits) {
      assert PeerOk(b.peers[p]);
      if b.peers[p].active {
        var k :| 0 <= k < |visits| && visits[k].0 == p;
        assert IsSnapshot(b, visits[k]);
        VisitedHas(visits, k);
      }
    }
    forall r | r in b.owner ensures r in Visited(visits) {
      assert r in b.peers[b.owner[r]].requests;
    }
    assert b.owner - Visited(visits) == map[];
    forall p | p in b.peers ensures CancelledAt(b.peers[p], Visited(visits)) == CancelledAt(b.peers[p], b.peers[p].requests) {
      EnoughCancelled(b.peers[p], Visited(visits));
    }
    SameBook(WithoutChunks(b, Visited(visits)), AllCancelled(b));
  }

  lemma EnoughCancelled(c: Peer, rs: set<Req>)
    requires c.requests <= rs
    ensures CancelledAt(c, rs) == CancelledAt(c, c.requests)
  {
    assert c.requests - rs == {} == c.requests - c.requests;
    assert c.requests * rs == c.requests == c.requests * c.requests;
  }

  /** Whatever the order of connections and of their requests: no panic, and nothing is outstanding afterwards. */
  lemma CancelEverywhereSafe(b: Book, visits: Visits)
    requires Sound(b) && VisitsActive(b, visits)
    ensures CancelEverywhere(b, visits) == Done(AllCancelled(b)) && Sound(AllCancelled(b))
  {
    CancelEverywhereIs(b, visits);
    EverythingVisited(b, visits);
    WithoutChunksSafe(b, Visited(visits));
  }

  /** Closing every peer, as closing the torrent does, touches no request. */
  function AllClosed(b: Book): Book {
    b.(peers := map p | p in b.peers :: b.peers[p].(closed := true))
  }

  lemma AllClosedSafe(b: Book)
    requires Sound(b)
    ensures Sound(AllClosed(b))
  {
    forall p | p in b.peers ensures PeerOk(AllClosed(b).peers[p]) {
      assert PeerOk(b.peers[p]);
    }
    hide PeerOk;
  }
}

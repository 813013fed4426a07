/** Runs of peer exchange in which a peer's picture goes wrong and stays wrong. */
module PexMisleads {
  import opened Pex
  import opened PexFeeds
  import opened PexNetwork

  lemma {:induction false} OneMoreAct(n: Net, acts: seq<Act>, act: Act)
    requires n.cursor <= |n.pub.feed|
    ensures PerformAll(n, acts + [act]) == Perform(PerformAll(n, acts), act)
    decreases |acts|
  {
    if acts == [] {
      assert (acts + [act])[1..] == [];
    } else {
      assert (acts + [act])[1..] == acts[1..] + [act];
      OneMoreAct(Perform(n, acts[0]), acts[1..], act);
    }
  }

  function Address(i: nat): Addr {
    V4(i, 6881)
  }

  /** Handshakes of `k` more connections, each from an address of its own. */
  function Crowd(k: nat): seq<Act> {
    if k == 0 then [] else Crowd(k - 1) + [Handshake(k + 2, Address(k), 0)]
  }

  function Arrivals(k: nat): seq<Event> {
    if k == 0 then [] else Arrivals(k - 1) + [Added(Address(k), 0)]
  }

  /** A connection ends and its address comes back while the drop is still held. */
  const RECONNECT := [Handshake(1, Address(0), 0), Close(1), Handshake(2, Address(0), 0)]

  lemma Reconnected()
    ensures PerformAll(QUIET, RECONNECT) ==
            Net(Publisher([Added(Address(0), 0), Added(Address(0), 0)], [Dropped(Address(0))], 1), map[2 := Address(0)], 0, map[])
  {
    var h, c, g := Handshake(1, Address(0), 0), Close(1), Handshake(2, Address(0), 0);
    OneMoreAct(QUIET, [], h);
    OneMoreAct(QUIET, [h], c);
    OneMoreAct(QUIET, [h, c], g);
    assert [] + [h] == [h] && [h] + [c] == [h, c] && [h, c] + [g] == RECONNECT;
    var n1 := Perform(QUIET, h);
    assert n1 == Net(Publisher([Added(Address(0), 0)], [], 1), map[1 := Address(0)], 0, map[]);
    var n2 := Perform(n1, c);
    assert n2 == Net(Publisher([Added(Address(0), 0)], [Dropped(Address(0))], 0), map[], 0, map[]);
  }

  lemma {:induction false} Crowded(k: nat)
    requires k < 24
    ensures var n := PerformAll(QUIET, RECONNECT + Crowd(k));
            && n.pub == Publisher([Added(Address(0), 0), Added(Address(0), 0)] + Arrivals(k), [Dropped(Address(0))], 1 + k)
            && 2 in n.conns && n.conns[2] == Address(0) && ME !in n.conns && n.cursor == 0 && n.believed == map[]
  {
    if k == 0 {
      assert RECONNECT + Crowd(0) == RECONNECT;
      Reconnected();
    } else {
      Crowded(k - 1);
      var h := Handshake(k + 2, Address(k), 0);
      OneMoreAct(QUIET, RECONNECT + Crowd(k - 1), h);
      assert RECONNECT + Crowd(k) == RECONNECT + Crowd(k - 1) + [h];
    }
  }

  lemma {:induction false} ArrivalsAre(k: nat, x: Addr)
    requires forall j: nat :: 1 <= j <= k ==> x != Address(j)
    ensures NoEvent(Arrivals(k), x)
  {
    if k > 0 {
      ArrivalsAre(k - 1, x);
    }
  }

  /** A first event of an address is told. */
  lemma FirstIsTold(es: seq<Event>, b: Addr)
    requires NoEvent(es, b)
    ensures b in CoalesceAll(es + [Added(b, 0)]).added
  {
    NotMentioned(es, b);
    assert (es + [Added(b, 0)])[..|es|] == es;
  }

  /** A peer without records is told the whole feed in one message, and is then at its end. */
  lemma FirstMessage(n: Net)
    requires ME in n.conns && n.cursor == 0 && n.believed == map[] && CoalesceAll(n.pub.feed) != NOTHING && n.pub.feed != []
    ensures var n1 := Perform(n, Share);
            n1 == n.(cursor := |n.pub.feed|, believed := CoalesceAll(n.pub.feed).added)
  {
    assert Receive(map[], CoalesceAll(n.pub.feed)) == CoalesceAll(n.pub.feed).added;
  }

  lemma AtTheEnd(n: Net, x: Addr)
    requires n.cursor == |n.pub.feed| && n.pub.hold == []
    ensures Settled(n, x)
  {
    var end := |n.pub.feed|;
    assert n.pub.feed[end..] == [] == n.pub.feed[end..end];
    NotMentioned([], x);
    assert MutedUpTo(n.pub.feed, end, end, x);
  }

  /** The last handshake is the peer's own; what the feed says of `x` before it is all the peer will know of `x`. */
  lemma JoinsAndIsTold(n: Net, x: Addr, b: Addr)
    requires n.cursor == 0 && n.believed == map[] && n.pub.alive + 1 >= TARGET_ADDED && x != b
    requires NoEvent(n.pub.feed + n.pub.hold, b) && x !in CoalesceAll(n.pub.feed + n.pub.hold).added
    requires x in n.conns.Values && (ME in n.conns ==> n.conns[ME] != x)
    ensures var n1 := Perform(Perform(n, Handshake(ME, b, 0)), Share);
            Untold(n1, x) && x in n1.conns.Values && n1.pub.hold == [] && n1.cursor == |n1.pub.feed|
  {
    var es := n.pub.feed + n.pub.hold;
    var n1 := Perform(n, Handshake(ME, b, 0));
    assert n1.pub.feed == es + [Added(b, 0)] && n1.pub.hold == [];
    FirstIsTold(es, b);
    Elsewhere({}, es, [Added(b, 0)], x);
    ConnStays(n, Handshake(ME, b, 0), x);
    hide CoalesceAll, AddConn, Settled;
    FirstMessage(n1);
    AtTheEnd(n1.(cursor := |n1.pub.feed|, believed := CoalesceAll(n1.pub.feed).added), x);
  }

  lemma LastDropGone(es: seq<Event>, a: Addr)
    ensures a !in CoalesceAll(es + [Dropped(a)]).added
  {
    SpokenIsRight({}, es + [Dropped(a)]);
    AlternatesSnoc(es, Dropped(a));
  }

  const MISSED := RECONNECT + Crowd(23) + [Handshake(ME, Address(24), 0), Share]

  lemma MissedStays()
    ensures Untold(PerformAll(QUIET, MISSED), Address(0)) && Address(0) in PerformAll(QUIET, MISSED).conns.Values
  {
    var acts, h := RECONNECT + Crowd(23), Handshake(ME, Address(24), 0);
    Crowded(23);
    OneMoreAct(QUIET, acts, h);
    OneMoreAct(QUIET, acts + [h], Share);
    assert MISSED == acts + [h] + [Share];
    hide PerformAll, Untold, Crowd, Perform;
    CrowdMissed(PerformAll(QUIET, acts));
  }

  lemma CrowdMissed(n: Net)
    requires n.pub == Publisher([Added(Address(0), 0), Added(Address(0), 0)] + Arrivals(23), [Dropped(Address(0))], 24)
    requires 2 in n.conns && n.conns[2] == Address(0) && ME !in n.conns && n.cursor == 0 && n.believed == map[]
    ensures var n1 := Perform(Perform(n, Handshake(ME, Address(24), 0)), Share);
            Untold(n1, Address(0)) && Address(0) in n1.conns.Values
  {
    hide CoalesceAll, Arrivals, Untold, Perform;
    ArrivalsAre(23, Address(24));
    LastDropGone(n.pub.feed, Address(0));
    assert n.conns[2] in n.conns.Values;
    JoinsAndIsTold(n, Address(0), Address(24));
  }

  /**
    An address that reconnects while its drop is on hold: once the twenty-fifth connection releases the hold, a peer
    told from then on never hears of the address, although it is connected, whatever other addresses do.
  */
  lemma ReconnectOnHoldMisleads(later: seq<Act>)
    requires NotAbout(PerformAll(QUIET, MISSED), later, Address(0))
    ensures var n := PerformAll(QUIET, MISSED + later); Address(0) in n.conns.Values && Address(0) !in n.believed
  {
    MissedStays();
    hide Untold, PerformAll, NotAbout;
    PerformSplit(QUIET, MISSED, later);
    StaysUntold(PerformAll(QUIET, MISSED), later, Address(0));
  }

  // ---------- two connections from one address ----------

  lemma {:induction false} Gathered(k: nat)
    requires k <= TARGET_ADDED
    ensures var n := PerformAll(QUIET, Crowd(k));
            && n.pub == Publisher(Arrivals(k), [], k) && n.cursor == 0 && n.believed == map[]
            && forall c :: c in n.conns ==> 3 <= c < 3 + k
  {
    if k > 0 {
      Gathered(k - 1);
      OneMoreAct(QUIET, Crowd(k - 1), Handshake(k + 2, Address(k), 0));
      assert Arrivals(k - 1) + [] == Arrivals(k - 1);
    }
  }

  const X := Address(0)

  /** Two connections from one address come and go, then a third comes. */
  const SHARED := [Handshake(1, X, 0), Handshake(2, X, 0), Close(1), Close(2), Handshake(100, X, 0)]

  function Shared(es: seq<Event>): seq<Event> {
    es + [Added(X, 0)] + [Added(X, 0)] + [Dropped(X)] + [Dropped(X)] + [Added(X, 0)]
  }

  lemma DeltaSnoc(es: seq<Event>, e: Event)
    ensures CoalesceAll(es + [e]) == Coalesce(CoalesceAll(es), e)
  {
    assert (es + [e])[..|es|] == es;
  }

  /** The last add only takes back the second drop: the delta is silent although the address is connected. */
  lemma SharedIsSilent(es: seq<Event>)
    requires NoEvent(es, X)
    ensures X !in CoalesceAll(Shared(es)).added && X !in CoalesceAll(Shared(es)).dropped && X in Live({}, Shared(es))
  {
    var e1 := es + [Added(X, 0)];
    var e2 := e1 + [Added(X, 0)];
    var e3 := e2 + [Dropped(X)];
    var e4 := e3 + [Dropped(X)];
    NotMentioned(es, X);
    DeltaSnoc(es, Added(X, 0));
    DeltaSnoc(e1, Added(X, 0));
    DeltaSnoc(e2, Dropped(X));
    DeltaSnoc(e3, Dropped(X));
    DeltaSnoc(e4, Added(X, 0));
    AlternatesSnoc(e4, Added(X, 0));
    hide CoalesceAll, Live;
  }

  /** The publisher appends exactly these five events whenever enough connections are alive and nothing is on hold. */
  lemma SharedFeed(p: Publisher)
    requires p.alive >= TARGET_ADDED && p.hold == []
    ensures AddConn(DropConn(DropConn(AddConn(AddConn(p, X, 0), X, 0), X), X), X, 0) == Publisher(Shared(p.feed), [], p.alive + 1)
  {
    var p1 := AddConn(p, X, 0);
    assert p1 == Publisher(p.feed + [Added(X, 0)], [], p.alive + 1) by { assert p.feed + [] == p.feed; }
    var p2 := AddConn(p1, X, 0);
    assert p2 == Publisher(p1.feed + [Added(X, 0)], [], p.alive + 2) by { assert p1.feed + [] == p1.feed; }
    var p4 := DropConn(DropConn(p2, X), X);
    assert p4.feed + [] == p4.feed;
  }

  lemma SharedRun(n: Net)
    requires n.cursor <= |n.pub.feed| && n.pub.alive >= TARGET_ADDED && n.pub.hold == []
    requires ME !in n.conns && 1 !in n.conns && 2 !in n.conns
    ensures var n1 := PerformAll(n, SHARED);
            && n1.pub == Publisher(Shared(n.pub.feed), [], n.pub.alive + 1) && n1.cursor == n.cursor && n1.believed == n.believed
            && 100 in n1.conns && n1.conns[100] == X && ME !in n1.conns
  {
    var n1 := Perform(n, SHARED[0]);
    var n2 := Perform(n1, SHARED[1]);
    var n3 := Perform(n2, SHARED[2]);
    var n4 := Perform(n3, SHARED[3]);
    var n5 := Perform(n4, SHARED[4]);
    SharedFeed(n.pub);
    FiveActs(n, SHARED);
  }

  lemma FiveActs(n: Net, acts: seq<Act>)
    requires n.cursor <= |n.pub.feed| && |acts| == 5
    ensures PerformAll(n, acts) ==
            Perform(Perform(Perform(Perform(Perform(n, acts[0]), acts[1]), acts[2]), acts[3]), acts[4])
  {
    hide Perform;
    OneMoreAct(n, [], acts[0]);
    OneMoreAct(n, acts[..1], acts[1]);
    OneMoreAct(n, acts[..2], acts[2]);
    OneMoreAct(n, acts[..3], acts[3]);
    OneMoreAct(n, acts[..4], acts[4]);
    assert [] + [acts[0]] == acts[..1] && acts[..1] + [acts[1]] == acts[..2] && acts[..2] + [acts[2]] == acts[..3];
    assert acts[..3] + [acts[3]] == acts[..4] && acts[..4] + [acts[4]] == acts;
  }

  const SILENT := Crowd(25) + SHARED + [Handshake(ME, Address(26), 0), Share]

  lemma SilentBefore()
    ensures var n := PerformAll(QUIET, Crowd(25) + SHARED);
            && n.pub == Publisher(Shared(Arrivals(25)), [], 26) && n.cursor == 0 && n.believed == map[]
            && 100 in n.conns && n.conns[100] == X && ME !in n.conns
  {
    hide PerformAll, Crowd, Perform, Arrivals, Shared;
    Gathered(25);
    PerformSplit(QUIET, Crowd(25), SHARED);
    SharedRun(PerformAll(QUIET, Crowd(25)));
  }

  lemma SilentStays()
    ensures Untold(PerformAll(QUIET, SILENT), X) && X in PerformAll(QUIET, SILENT).conns.Values
  {
    hide PerformAll, Untold, Crowd, Perform, Arrivals, Shared;
    var h, acts := Handshake(ME, Address(26), 0), Crowd(25) + SHARED;
    SilentBefore();
    ArrivalsAre(25, Address(26));
    ArrivalsAre(25, X);
    SharedMissed(PerformAll(QUIET, acts), Arrivals(25));
    OneMoreAct(QUIET, acts, h);
    OneMoreAct(QUIET, acts + [h], Share);
    assert SILENT == acts + [h] + [Share];
  }

  lemma SharedMissed(n: Net, es: seq<Event>)
    requires n.pub == Publisher(Shared(es), [], 26) && n.cursor == 0 && n.believed == map[]
    requires NoEvent(es, X) && NoEvent(es, Address(26))
    requires 100 in n.conns && n.conns[100] == X && ME !in n.conns
    ensures var n1 := Perform(Perform(n, Handshake(ME, Address(26), 0)), Share);
            Untold(n1, X) && X in n1.conns.Values
  {
    SharedIsSilent(es);
    SharedOnly(es, Address(26));
    hide CoalesceAll, Untold, Shared, NoEvent;
    assert n.pub.feed + n.pub.hold == n.pub.feed;
    JoinsAndIsTold(n, X, Address(26));
  }

  lemma SharedOnly(es: seq<Event>, b: Addr)
    requires NoEvent(es, b) && b != X
    ensures NoEvent(Shared(es), b)
  {
  }

  /**
    Two connections from one address, both closed, and then a third: the initial message is silent about the address,
    and a peer that joins then never hears of it, although it is connected, whatever other addresses do.
  */
  lemma SharedAddressMisleads(later: seq<Act>)
    requires NotAbout(PerformAll(QUIET, SILENT), later, X)
    ensures var n := PerformAll(QUIET, SILENT + later); X in n.conns.Values && X !in n.believed
  {
    SilentStays();
    hide Untold, PerformAll, NotAbout;
    PerformSplit(QUIET, SILENT, later);
    StaysUntold(PerformAll(QUIET, SILENT), later, X);
  }

  // ---------- a handshake sent over and over ----------

  function Again(k: nat): seq<Act> {
    if k == 0 then [] else Again(k - 1) + [Handshake(1, Address(0), 0)]
  }

  function Adds(k: nat): (es: seq<Event>)
    ensures |es| == k
  {
    if k == 0 then [] else Adds(k - 1) + [Added(Address(0), 0)]
  }

  const TOLD_ONCE := [Handshake(ME, Address(1), 0), Handshake(1, Address(0), 0), Share]

  const BOTH := [Added(Address(1), 0), Added(Address(0), 0)]

  lemma ToldOnce()
    ensures PerformAll(QUIET, TOLD_ONCE) ==
            Net(Publisher(BOTH, [], 2), map[ME := Address(1), 1 := Address(0)], 2, map[Address(1) := 0, Address(0) := 0])
  {
    var g, h := Handshake(ME, Address(1), 0), Handshake(1, Address(0), 0);
    OneMoreAct(QUIET, [], g);
    OneMoreAct(QUIET, [g], h);
    OneMoreAct(QUIET, [g, h], Share);
    assert [] + [g] == [g] && [g] + [h] == [g, h] && [g, h] + [Share] == TOLD_ONCE;
    var n1 := Perform(QUIET, g);
    assert n1 == Net(Publisher([Added(Address(1), 0)], [], 1), map[ME := Address(1)], 0, map[]);
    var n2 := Perform(n1, h);
    assert n2 == Net(Publisher(BOTH, [], 2), map[ME := Address(1), 1 := Address(0)], 0, map[]);
    BothDelta();
    hide CoalesceAll;
    FirstMessage(n2);
  }

  lemma BothDelta()
    ensures CoalesceAll(BOTH) == Delta(map[Address(1) := 0, Address(0) := 0], {})
  {
    var a, b := Added(Address(1), 0), Added(Address(0), 0);
    assert BOTH == [] + [a] + [b];
    DeltaSnoc([], a);
    DeltaSnoc([] + [a], b);
    assert map[][Address(1) := 0] == map[Address(1) := 0];
    assert map[Address(1) := 0][Address(0) := 0] == map[Address(1) := 0, Address(0) := 0];
  }

  lemma {:induction false} Repeated(k: nat)
    ensures PerformAll(QUIET, TOLD_ONCE + Again(k)) ==
            Net(Publisher(BOTH + Adds(k), [], 2 + k), map[ME := Address(1), 1 := Address(0)], 2, map[Address(1) := 0, Address(0) := 0])
  {
    ToldOnce();
    if k == 0 {
      assert TOLD_ONCE + Again(0) == TOLD_ONCE && BOTH + Adds(0) == BOTH;
    } else {
      Repeated(k - 1);
      OneMoreAct(QUIET, TOLD_ONCE + Again(k - 1), Handshake(1, Address(0), 0));
      assert TOLD_ONCE + Again(k) == TOLD_ONCE + Again(k - 1) + [Handshake(1, Address(0), 0)];
      assert BOTH + Adds(k) == BOTH + Adds(k - 1) + [Added(Address(0), 0)];
      assert map[ME := Address(1), 1 := Address(0)][1 := Address(0)] == map[ME := Address(1), 1 := Address(0)];
      assert BOTH + Adds(k - 1) + [] == BOTH + Adds(k - 1);
    }
  }

  lemma {:induction false} AddsCoalesce(k: nat)
    ensures CoalesceAll(Adds(k)) == if k == 0 then NOTHING else Delta(map[Address(0) := 0], {})
  {
    if k > 0 {
      AddsCoalesce(k - 1);
      assert Adds(k)[..k - 1] == Adds(k - 1);
    }
  }

  lemma {:induction false} AddsPrefix(k: nat, j: nat)
    requires j <= k
    ensures Adds(k)[..j] == Adds(j)
  {
    AddsCoalesce(k);
    if j < k {
      AddsPrefix(k - 1, j);
    }
  }

  lemma OnceMoreToldNothing(k: nat)
    requires k > 0
    ensures CoalesceAll(Adds(k) + [Dropped(X)]) == NOTHING
  {
    AddsCoalesce(k);
    DeltaSnoc(Adds(k), Dropped(X));
    assert map[X := 0] - {X} == map[];
  }

  /** A rest of the feed that says nothing as a whole and little in every part. */
  lemma MutedRest(told: seq<Event>, news: seq<Event>, x: Addr)
    requires CoalesceAll(news) == NOTHING && forall j :: 0 <= j < |news| ==> CoalesceAll(news[..j]).Size() < MAX_DELTA
    ensures MutedUpTo(told + news, |told|, |told + news|, x)
  {
    hide CoalesceAll, Delta.Size;
    var feed, n := told + news, |told|;
    assert feed[n..|feed|] == news && feed[|feed|..] == [];
    forall m | n <= m < |feed| ensures DeltaOf(feed, n, m).Size() < MAX_DELTA {
      assert feed[n..m] == news[..m - n];
    }
  }

  /** All that is left to tell is repeated adds and the drop, which say nothing together. */
  lemma RepeatsAreMuted(k: nat)
    requires k > 0
    ensures var feed := BOTH + (Adds(k) + [Dropped(X)]); MutedUpTo(feed, 2, |feed|, X)
  {
    var news := Adds(k) + [Dropped(X)];
    OnceMoreToldNothing(k);
    hide CoalesceAll, Adds, Delta.Size, MutedUpTo;
    forall j | 0 <= j < |news| ensures CoalesceAll(news[..j]).Size() < MAX_DELTA {
      assert news[..j] == Adds(k)[..j];
      FewAdds(k, j);
    }
    MutedRest(BOTH, news, X);
  }

  lemma FewAdds(k: nat, j: nat)
    requires j <= k
    ensures CoalesceAll(Adds(k)[..j]).Size() <= 1
  {
    AddsPrefix(k, j);
    AddsCoalesce(j);
    assert map[X := 0].Keys == {X};
  }

  lemma {:induction false} BothThenAdds(k: nat)
    ensures X in CoalesceAll(BOTH + Adds(k)).added
  {
    if k == 0 {
      assert BOTH + Adds(0) == BOTH == [Added(Address(1), 0)] + [Added(X, 0)];
      NotMentioned([Added(Address(1), 0)], X);
      DeltaSnoc([Added(Address(1), 0)], Added(X, 0));
    } else {
      BothThenAdds(k - 1);
      assert BOTH + Adds(k) == (BOTH + Adds(k - 1)) + [Added(X, 0)];
      DeltaSnoc(BOTH + Adds(k - 1), Added(X, 0));
    }
  }

  lemma ClosedAfter(k: nat, n: Net)
    requires k >= TARGET_ADDED - 1
    requires n == Net(Publisher(BOTH + Adds(k), [], 2 + k), map[ME := Address(1), 1 := X], 2, map[Address(1) := 0, X := 0])
    ensures Perform(n, Close(1)) ==
            Net(Publisher(BOTH + (Adds(k) + [Dropped(X)]), [], 1 + k), map[ME := Address(1)], 2, map[Address(1) := 0, X := 0])
  {
    assert map[ME := Address(1), 1 := X] - {1} == map[ME := Address(1)];
    assert BOTH + Adds(k) + [Dropped(X)] == BOTH + (Adds(k) + [Dropped(X)]);
  }

  lemma RepeatedHaunts(k: nat)
    requires k >= TARGET_ADDED - 1
    ensures Haunted(PerformAll(QUIET, TOLD_ONCE + Again(k) + [Close(1)]), X)
  {
    Repeated(k);
    OneMoreAct(QUIET, TOLD_ONCE + Again(k), Close(1));
    ClosedAfter(k, PerformAll(QUIET, TOLD_ONCE + Again(k)));
    hide PerformAll, Perform, Again, Adds, Haunted;
    HauntedOnceClosed(k);
  }

  lemma HauntedOnceClosed(k: nat)
    requires k > 0
    ensures Haunted(Net(Publisher(BOTH + (Adds(k) + [Dropped(X)]), [], 1 + k), map[ME := Address(1)], 2, map[Address(1) := 0, X := 0]), X)
  {
    var feed := BOTH + (Adds(k) + [Dropped(X)]);
    var n := Net(Publisher(feed, [], 1 + k), map[ME := Address(1)], 2, map[Address(1) := 0, X := 0]);
    RepeatsAreMuted(k);
    BothThenAdds(k);
    NeverBoth(BOTH + Adds(k));
    DeltaSnoc(BOTH + Adds(k), Dropped(X));
    hide CoalesceAll, MutedUpTo, Adds;
    assert BOTH + Adds(k) + [Dropped(X)] == feed;
    assert X !in CoalesceAll(feed).dropped;
    assert forall c :: c in n.conns ==> n.conns[c] != X;
    assert Settled(n, X);
  }

  /**
    A connection that sends its extended handshake again and again and then ends: a peer told after the first
    handshake keeps the address as long as it stays, although nothing is connected there, whatever other addresses do.
  */
  lemma RepeatedHandshakeMisleads(k: nat, later: seq<Act>)
    requires k >= TARGET_ADDED - 1 && Close(ME) !in later
    requires NotAbout(PerformAll(QUIET, TOLD_ONCE + Again(k) + [Close(1)]), later, X)
    ensures var n := PerformAll(QUIET, TOLD_ONCE + Again(k) + [Close(1)] + later);
            X !in n.conns.Values && X in n.believed && NoEvent(n.pub.hold, X)
  {
    RepeatedHaunts(k);
    hide PerformAll, NotAbout, Settled, CoalesceAll;
    PerformSplit(QUIET, TOLD_ONCE + Again(k) + [Close(1)], later);
    StaysHaunted(PerformAll(QUIET, TOLD_ONCE + Again(k) + [Close(1)]), later, X);
  }
}

/** The feed, the connections it reports and one peer being told, as one system over whole runs. */
module PexNetwork {
  import opened Pex
  import opened PexFeeds

  /** Listed connections by number, each with its dial address; the peer being told is connection `ME`. */
  datatype Net = Net(pub: Publisher, conns: map<nat, Addr>, cursor: nat, believed: map<Addr, Flags>)

  datatype Act = Handshake(c: nat, a: Addr, f: Flags) | Close(c: nat) | Share

  const ME: nat := 0

  const QUIET := Net(Publisher([], [], 0), map[], 0, map[])

  /** Every extended handshake adds, listed or not, and starts the messages to its own connection over. */
  function Perform(n: Net, act: Act): (n1: Net)
    requires n.cursor <= |n.pub.feed|
    ensures n1.cursor <= |n1.pub.feed|
  {
    match act
    case Handshake(c, a, f) =>
      Net(AddConn(n.pub, a, f), n.conns[c := a], if c == ME then 0 else n.cursor, n.believed)
    case Close(c) =>
      if c !in n.conns then n
      else if c == ME then Net(DropConn(n.pub, n.conns[c]), n.conns - {c}, 0, map[])
      else n.(pub := DropConn(n.pub, n.conns[c]), conns := n.conns - {c})
    case Share =>
      if ME !in n.conns then n
      else
        var s := Send(Session(n.pub.feed, n.cursor, n.believed));
        n.(cursor := s.cursor, believed := s.believed)
  }

  function PerformAll(n: Net, acts: seq<Act>): (n1: Net)
    requires n.cursor <= |n.pub.feed|
    ensures n1.cursor <= |n1.pub.feed|
    decreases |acts|
  {
    if acts == [] then n else PerformAll(Perform(n, acts[0]), acts[1..])
  }

  /** A handshake of a new connection, from an address neither connected nor waiting on hold past this step. */
  ghost predicate Clean(n: Net, act: Act) {
    act.Handshake? ==>
      && act.c !in n.conns && act.a !in n.conns.Values
      && (n.pub.alive + 1 >= TARGET_ADDED || !OnHold(n.pub, act.a))
  }

  ghost predicate CleanRun(n: Net, acts: seq<Act>)
    requires n.cursor <= |n.pub.feed|
    decreases |acts|
  {
    acts == [] || (Clean(n, acts[0]) && CleanRun(Perform(n, acts[0]), acts[1..]))
  }

  ghost predicate Distinct(conns: map<nat, Addr>) {
    forall c, d :: c in conns && d in conns && conns[c] == conns[d] ==> c == d
  }

  ghost predicate Good(n: Net) {
    && Publishes(n.pub, n.conns.Values) && Distinct(n.conns) && n.pub.alive == |n.conns|
    && Inv(Session(n.pub.feed, n.cursor, n.believed))
    && (ME !in n.conns ==> n.cursor == 0 && n.believed == map[])
  }

  lemma JoinValues(conns: map<nat, Addr>, c: nat, a: Addr)
    requires c !in conns
    ensures conns[c := a].Values == conns.Values + {a} && |conns[c := a]| == |conns| + 1
    ensures Distinct(conns) && a !in conns.Values ==> Distinct(conns[c := a])
  {
    assert conns[c := a][c] == a;
    forall v | v in conns.Values ensures v in conns[c := a].Values {
      var k :| k in conns && conns[k] == v;
      assert conns[c := a][k] == v;
    }
    assert conns[c := a] - {c} == conns;
  }

  lemma LeaveValues(conns: map<nat, Addr>, c: nat)
    requires Distinct(conns) && c in conns
    ensures (conns - {c}).Values == conns.Values - {conns[c]} && |conns - {c}| == |conns| - 1 && Distinct(conns - {c})
  {
    var rest := conns - {c};
    forall v | v in conns.Values - {conns[c]} ensures v in rest.Values {
      var k :| k in conns && conns[k] == v;
      assert rest[k] == v;
    }
    assert rest[c := conns[c]] == conns;
  }

  /** More events leave what a peer was told as it was. */
  lemma LongerFeed(s: Session, feed: seq<Event>)
    requires Inv(s) && s.feed <= feed && Alternates({}, feed)
    ensures Inv(s.(feed := feed))
  {
    assert feed[..s.cursor] == s.feed[..s.cursor];
  }

  lemma LongerAfterAdd(p: Publisher, a: Addr, f: Flags)
    ensures p.feed <= AddConn(p, a, f).feed
  {
  }

  lemma LongerAfterDrop(p: Publisher, a: Addr)
    ensures p.feed <= DropConn(p, a).feed
  {
  }

  lemma ToldNothing(feed: seq<Event>)
    requires Alternates({}, feed)
    ensures Inv(Session(feed, 0, map[]))
  {
    assert feed[..0] == [];
  }

  lemma CleanAdd(p: Publisher, connected: set<Addr>, a: Addr, f: Flags)
    requires Publishes(p, connected) && a !in connected && (p.alive + 1 >= TARGET_ADDED || !OnHold(p, a))
    ensures var p1 := AddConn(p, a, f);
            Publishes(p1, connected + {a}) && Alternates({}, p1.feed) && p1.alive == p.alive + 1
  {
    hide Alternates, Live, OnHold, Publishes;
    AddKeepsAlternation(p, connected, a, f);
  }

  lemma HandshakeKeeps(n: Net, c: nat, a: Addr, f: Flags)
    requires Good(n) && Clean(n, Handshake(c, a, f))
    ensures Good(Perform(n, Handshake(c, a, f)))
  {
    hide Alternates, Live, Inv, AddConn, Publishes, Distinct, OnHold;
    CleanAdd(n.pub, n.conns.Values, a, f);
    var p1 := AddConn(n.pub, a, f);
    LongerAfterAdd(n.pub, a, f);
    JoinValues(n.conns, c, a);
    LongerFeed(Session(n.pub.feed, n.cursor, n.believed), p1.feed);
    ToldNothing(p1.feed);
  }

  lemma CloseKeeps(n: Net, c: nat)
    requires Good(n) && c in n.conns
    ensures Good(Perform(n, Close(c)))
  {
    DropKeepsAlternation(n.pub, n.conns.Values, n.conns[c]);
    var p1 := DropConn(n.pub, n.conns[c]);
    assert Alternates({}, p1.feed) && p1.alive == n.pub.alive - 1;
    LongerAfterDrop(n.pub, n.conns[c]);
    hide Alternates, Live, Inv, DropConn, Publishes, Distinct;
    LeaveValues(n.conns, c);
    LongerFeed(Session(n.pub.feed, n.cursor, n.believed), p1.feed);
    ToldNothing(p1.feed);
  }

  lemma PerformKeeps(n: Net, act: Act)
    requires Good(n) && Clean(n, act)
    ensures Good(Perform(n, act))
  {
    match act
    case Handshake(c, a, f) => HandshakeKeeps(n, c, a, f);
    case Close(c) => if c in n.conns { CloseKeeps(n, c); }
    case Share => SendKeeps(Session(n.pub.feed, n.cursor, n.believed));
  }

  lemma {:induction false} CleanRunKeeps(n: Net, acts: seq<Act>)
    requires Good(n) && CleanRun(n, acts)
    ensures Good(PerformAll(n, acts))
    decreases |acts|
  {
    if acts != [] {
      PerformKeeps(n, acts[0]);
      CleanRunKeeps(Perform(n, acts[0]), acts[1..]);
    }
  }

  lemma QuietIsGood()
    ensures Good(QUIET)
  {
    assert QUIET.pub.feed[..0] == [];
  }

  /** The addresses whose drops are waiting. */
  ghost function Held(hold: seq<Event>): set<Addr> {
    set e | e in hold :: e.addr
  }

  lemma HeldIsRest(p: Publisher, connected: set<Addr>)
    requires Publishes(p, connected)
    ensures Live({}, p.feed) == connected + Held(p.hold) && connected !! Held(p.hold)
  {
    Split({}, p.feed, p.hold);
    forall a ensures a in Live({}, p.feed) <==> a in connected || a in Held(p.hold)
             ensures !(a in connected && a in Held(p.hold))
    {
      HeldAreLive(Live({}, p.feed), p.hold, a);
      assert a in Held(p.hold) <==> OnHold(p, a);
    }
  }

  lemma GoodTells(n: Net)
    requires Good(n) && ME in n.conns
    ensures n.cursor <= |n.pub.feed| && n.pub.alive == |n.conns|
    ensures Genmsg(n.pub.feed, n.cursor).1 == |n.pub.feed| ==>
              Perform(n, Share).believed.Keys == n.conns.Values + Held(n.pub.hold)
    ensures n.conns.Values !! Held(n.pub.hold)
  {
    hide Live, Alternates, Covered, CoalesceAll, Publishes, Held, Genmsg, Send;
    HeldIsRest(n.pub, n.conns.Values);
    if Genmsg(n.pub.feed, n.cursor).1 == |n.pub.feed| {
      CaughtUp(Session(n.pub.feed, n.cursor, n.believed));
    }
  }

  /**
    The feed, its hold buffer and the messages together: after any run of clean handshakes, a message that reaches the
    end of the feed leaves the peer with the connected addresses and, apart from them, those whose drops are on hold.
  */
  lemma PeerKnowsTheConnected(acts: seq<Act>)
    requires CleanRun(QUIET, acts) && ME in PerformAll(QUIET, acts).conns
    ensures var n := PerformAll(QUIET, acts);
            && n.cursor <= |n.pub.feed| && n.pub.alive == |n.conns|
            && (Genmsg(n.pub.feed, n.cursor).1 == |n.pub.feed| ==>
                  Perform(n, Share).believed.Keys == n.conns.Values + Held(n.pub.hold))
            && n.conns.Values !! Held(n.pub.hold)
  {
    QuietIsGood();
    hide Perform, PerformAll, CleanRun, Good, Genmsg, Held;
    CleanRunKeeps(QUIET, acts);
    GoodTells(PerformAll(QUIET, acts));
  }

  // ---------- handshakes that are not clean ----------

  /** The feed repeats itself, or the count of live connections is too high. */
  ghost predicate Broken(n: Net) {
    !Alternates({}, n.pub.feed) || n.pub.alive > |n.conns|
  }

  lemma UncleanBreaks(n: Net, act: Act)
    requires Good(n) && !Clean(n, act)
    ensures Broken(Perform(n, act))
  {
    AddKeepsAlternation(n.pub, n.conns.Values, act.a, act.f);
    if act.c in n.conns {
      assert n.conns[act.c := act.a].Keys == n.conns.Keys;
    }
  }

  lemma FeedGrows(n: Net, act: Act)
    requires n.cursor <= |n.pub.feed|
    ensures n.pub.feed <= Perform(n, act).pub.feed
  {
  }

  lemma PrefixAlternates(a: seq<Event>, b: seq<Event>)
    requires a <= b && Alternates({}, b)
    ensures Alternates({}, a)
  {
    Split({}, a, b[|a|..]);
    assert b == a + b[|a|..];
  }

  lemma BrokenStays(n: Net, act: Act)
    requires Broken(n) && n.cursor <= |n.pub.feed|
    ensures Broken(Perform(n, act))
  {
    if Alternates({}, Perform(n, act).pub.feed) {
      FeedGrows(n, act);
      PrefixAlternates(n.pub.feed, Perform(n, act).pub.feed);
      CountStays(n, act);
    }
  }

  lemma CountStays(n: Net, act: Act)
    requires n.pub.alive > |n.conns| && n.cursor <= |n.pub.feed|
    ensures Perform(n, act).pub.alive > |Perform(n, act).conns|
  {
    match act
    case Handshake(c, a, f) => Join(n.conns, c, a);
    case Close(c) => if c in n.conns { Leave(n.conns, c); }
    case Share =>
  }

  lemma Join(conns: map<nat, Addr>, c: nat, a: Addr)
    ensures |conns[c := a]| <= |conns| + 1
  {
    if c in conns {
      assert conns[c := a].Keys == conns.Keys;
    } else {
      assert conns[c := a] - {c} == conns;
    }
  }

  lemma Leave(conns: map<nat, Addr>, c: nat)
    requires c in conns
    ensures |conns - {c}| == |conns| - 1
  {
    assert (conns - {c})[c := conns[c]] == conns;
  }

  lemma {:induction false} BrokenForGood(n: Net, acts: seq<Act>)
    requires Broken(n) && n.cursor <= |n.pub.feed|
    ensures Broken(PerformAll(n, acts))
    decreases |acts|
  {
    if acts != [] {
      BrokenStays(n, acts[0]);
      BrokenForGood(Perform(n, acts[0]), acts[1..]);
    }
  }

  lemma {:induction false} BrokenUnlessClean(n: Net, acts: seq<Act>)
    requires Good(n)
    ensures Broken(PerformAll(n, acts)) <==> !CleanRun(n, acts)
    decreases |acts|
  {
    if acts == [] {
    } else if Clean(n, acts[0]) {
      PerformKeeps(n, acts[0]);
      BrokenUnlessClean(Perform(n, acts[0]), acts[1..]);
    } else {
      UncleanBreaks(n, acts[0]);
      BrokenForGood(Perform(n, acts[0]), acts[1..]);
    }
  }

  /** Over whole runs, the feed alternates and the count is right exactly when every handshake was clean. */
  lemma CleanRunsExactly(acts: seq<Act>)
    ensures var n := PerformAll(QUIET, acts);
            Alternates({}, n.pub.feed) && n.pub.alive <= |n.conns| <==> CleanRun(QUIET, acts)
  {
    QuietIsGood();
    BrokenUnlessClean(QUIET, acts);
  }

  // ---------- starting over ----------

  /** After alternating events an add is stale at worst, never a drop. */
  lemma AddNoStaleDrop(es: seq<Event>, e: Event)
    requires Alternates({}, es) && e.Added?
    ensures forall a :: !StaleDrop(es + [e], a)
  {
    assert (es + [e])[..|es|] == es;
    forall a ensures !StaleDrop(es + [e], a) {
      NeverStale({}, es, a);
    }
  }

  /** Where the feed of a good state stands after one more handshake, clean or not. */
  lemma HandshakeFeed(p: Publisher, connected: set<Addr>, a: Addr, f: Flags)
    requires Publishes(p, connected)
    ensures forall x :: !StaleDrop(AddConn(p, a, f).feed, x)
    ensures Live({}, AddConn(p, a, f).feed) == connected + {a} + Held(AddConn(p, a, f).hold)
  {
    Split({}, p.feed, p.hold);
    HeldIsRest(p, connected);
    if p.alive + 1 >= TARGET_ADDED {
      AddNoStaleDrop(p.feed + p.hold, Added(a, f));
      AlternatesSnoc(p.feed + p.hold, Added(a, f));
    } else {
      AddNoStaleDrop(p.feed, Added(a, f));
      AlternatesSnoc(p.feed, Added(a, f));
    }
  }

  /**
    A good peer repeats its handshake: the next message leaves it with what it believed and what is connected or on
    hold, which is right exactly when nothing it believed has gone.
  */
  lemma RestartFromGood(n: Net, a: Addr, f: Flags)
    requires Good(n) && ME in n.conns
    ensures var n1 := Perform(n, Handshake(ME, a, f));
            var known := n.conns.Values + {a} + Held(n1.pub.hold);
            && Live({}, n1.pub.feed) == known
            && Perform(n1, Share).believed.Keys == n.believed.Keys + known
            && (Perform(n1, Share).believed.Keys == known <==> n.believed.Keys <= known)
  {
    HandshakeFeed(n.pub, n.conns.Values, a, f);
    hide Good, AddConn, Live, StaleDrop, Held, Send;
    RestartOnlyAdds(AddConn(n.pub, a, f).feed, n.believed);
  }

  // ---------- what a peer is never told ----------

  lemma {:induction false} PerformSplit(n: Net, acts: seq<Act>, more: seq<Act>)
    requires n.cursor <= |n.pub.feed|
    ensures PerformAll(n, acts + more) == PerformAll(PerformAll(n, acts), more)
    decreases |acts|
  {
    if acts == [] {
      assert acts + more == more;
    } else {
      assert (acts + more)[1..] == acts[1..] + more;
      PerformSplit(Perform(n, acts[0]), acts[1..], more);
    }
  }

  /** The act is one of a connection with that address. */
  predicate About(n: Net, act: Act, x: Addr) {
    match act
    case Handshake(c, a, f) => a == x || (c in n.conns && n.conns[c] == x)
    case Close(c) => c in n.conns && n.conns[c] == x
    case Share => false
  }

  ghost predicate NotAbout(n: Net, acts: seq<Act>, x: Addr)
    requires n.cursor <= |n.pub.feed|
    decreases |acts|
  {
    acts == [] || (!About(n, acts[0], x) && NotAbout(Perform(n, acts[0]), acts[1..], x))
  }

  /** What is left to tell from the cursor up to `b` fits one message that is silent about the address; no event of it follows. */
  ghost predicate MutedUpTo(feed: seq<Event>, cursor: nat, b: nat, x: Addr) {
    && cursor <= b <= |feed| && NoEvent(feed[b..], x)
    && x !in DeltaOf(feed, cursor, b).added && x !in DeltaOf(feed, cursor, b).dropped
    && forall m :: cursor <= m < b ==> DeltaOf(feed, cursor, m).Size() < MAX_DELTA
  }

  /** Nothing about the address is on hold, and no message but an initial one will mention it. */
  ghost predicate Settled(n: Net, x: Addr) {
    n.cursor <= |n.pub.feed| && NoEvent(n.pub.hold, x) && (n.cursor == 0 || exists b :: MutedUpTo(n.pub.feed, n.cursor, b, x))
  }

  lemma {:induction false} CoveredReaches(feed: seq<Event>, start: nat, k: nat, b: nat)
    requires start <= k <= b <= |feed| && forall m :: start <= m < b ==> DeltaOf(feed, start, m).Size() < MAX_DELTA
    ensures Covered(feed, start, k) >= b
    decreases |feed| - k
  {
    hide DeltaOf, Delta.Size;
    if k < b {
      CoveredReaches(feed, start, k + 1, b);
    }
  }

  /** A settled session sends nothing about the address, and stays settled. */
  lemma SettledSend(feed: seq<Event>, cursor: nat, b: nat, x: Addr)
    requires MutedUpTo(feed, cursor, b, x)
    ensures var end := Covered(feed, cursor, cursor);
            && x !in DeltaOf(feed, cursor, end).added && x !in DeltaOf(feed, cursor, end).dropped
            && MutedUpTo(feed, end, end, x)
  {
    var end := Covered(feed, cursor, cursor);
    CoveredReaches(feed, cursor, cursor, b);
    hide Covered, CoalesceAll;
    assert NoEvent(feed[b..end], x) && NoEvent(feed[end..], x) by {
      assert forall e :: e in feed[b..end] ==> e in feed[b..];
      assert forall e :: e in feed[end..] ==> e in feed[b..];
    }
    assert feed[cursor..end] == feed[cursor..b] + feed[b..end];
    Elsewhere({}, feed[cursor..b], feed[b..end], x);
    assert feed[end..end] == [];
    NotMentioned([], x);
  }

  lemma MutedLonger(feed: seq<Event>, cursor: nat, b: nat, x: Addr, more: seq<Event>)
    requires MutedUpTo(feed, cursor, b, x) && NoEvent(more, x)
    ensures MutedUpTo(feed + more, cursor, b, x)
  {
    hide CoalesceAll;
    assert (feed + more)[b..] == feed[b..] + more;
    assert (feed + more)[cursor..b] == feed[cursor..b];
    forall m | cursor <= m < b ensures DeltaOf(feed + more, cursor, m).Size() < MAX_DELTA {
      assert (feed + more)[cursor..m] == feed[cursor..m];
      assert DeltaOf(feed + more, cursor, m) == DeltaOf(feed, cursor, m);
    }
  }

  /** What an act of another address appends to the feed, and leaves on hold. */
  lemma AppendsOthers(n: Net, act: Act, x: Addr) returns (more: seq<Event>)
    requires n.cursor <= |n.pub.feed| && NoEvent(n.pub.hold, x) && !About(n, act, x)
    ensures Perform(n, act).pub.feed == n.pub.feed + more && NoEvent(more, x) && NoEvent(Perform(n, act).pub.hold, x)
  {
    match act
    case Handshake(c, a, f) =>
      more := if n.pub.alive + 1 >= TARGET_ADDED then n.pub.hold + [Added(a, f)] else [Added(a, f)];
    case Close(c) =>
      more := Perform(n, act).pub.feed[|n.pub.feed|..];
    case Share =>
      more := [];
      hide Send;
  }

  lemma {:induction false} NotMentioned(es: seq<Event>, x: Addr)
    requires NoEvent(es, x)
    ensures x !in CoalesceAll(es).added && x !in CoalesceAll(es).dropped
  {
    if es != [] {
      NotMentioned(es[..|es| - 1], x);
    }
  }

  /** An act of another address leaves what was settled settled; the initial message says of it what it said before. */
  lemma SettledStep(n: Net, act: Act, x: Addr)
    requires Settled(n, x) && !About(n, act, x) && !act.Share?
    ensures Settled(Perform(n, act), x)
    ensures var d, d1 := CoalesceAll(n.pub.feed), CoalesceAll(Perform(n, act).pub.feed);
            (x in d1.added <==> x in d.added) && (x in d1.dropped <==> x in d.dropped)
  {
    var more := AppendsOthers(n, act, x);
    Elsewhere({}, n.pub.feed, more, x);
    hide CoalesceAll, MutedUpTo, NoEvent, AddConn, DropConn, About;
    if n.cursor > 0 {
      var b :| MutedUpTo(n.pub.feed, n.cursor, b, x);
      MutedLonger(n.pub.feed, n.cursor, b, x, more);
    }
  }

  lemma SettledShare(n: Net, x: Addr)
    requires Settled(n, x) && ME in n.conns
    ensures Settled(Perform(n, Share), x)
    ensures n.cursor > 0 ==> (x in Perform(n, Share).believed <==> x in n.believed)
  {
    if n.cursor > 0 {
      var b :| MutedUpTo(n.pub.feed, n.cursor, b, x);
      SettledSend(n.pub.feed, n.cursor, b, x);
      hide MutedUpTo, Covered, CoalesceAll;
    } else {
      hide CoalesceAll;
      var end := |n.pub.feed|;
      assert n.pub.feed[end..] == [] == n.pub.feed[end..end];
      NotMentioned([], x);
      assert MutedUpTo(n.pub.feed, end, end, x);
    }
  }

  /** The peer does not have the address, and neither an initial message nor any later one will add it. */
  ghost predicate Untold(n: Net, x: Addr) {
    Settled(n, x) && x !in n.believed && x !in CoalesceAll(n.pub.feed).added
  }

  lemma UntoldStep(n: Net, act: Act, x: Addr)
    requires Untold(n, x) && !About(n, act, x)
    ensures Untold(Perform(n, act), x)
  {
    hide Settled, CoalesceAll, Covered;
    if !act.Share? {
      SettledStep(n, act, x);
    } else if ME in n.conns {
      SettledShare(n, x);
    }
  }

  /** An address untold stays untold, and its connections stay, through every run of acts of other addresses. */
  lemma {:induction false} StaysUntold(n: Net, acts: seq<Act>, x: Addr)
    requires Untold(n, x) && NotAbout(n, acts, x)
    ensures x !in PerformAll(n, acts).believed
    ensures x in n.conns.Values ==> x in PerformAll(n, acts).conns.Values
    decreases |acts|
  {
    if acts != [] {
      UntoldStep(n, acts[0], x);
      if x in n.conns.Values {
        ConnStays(n, acts[0], x);
      }
      hide Untold, Perform, About;
      StaysUntold(Perform(n, acts[0]), acts[1..], x);
    }
  }

  lemma ConnStays(n: Net, act: Act, x: Addr)
    requires n.cursor <= |n.pub.feed| && x in n.conns.Values && !About(n, act, x)
    ensures x in Perform(n, act).conns.Values
  {
    var c :| c in n.conns && n.conns[c] == x;
    assert c in Perform(n, act).conns && Perform(n, act).conns[c] == x;
  }

  /** The peer holds an address that no connection has, and no message will take back. */
  ghost predicate Haunted(n: Net, x: Addr) {
    && Settled(n, x) && x in n.believed && x !in n.conns.Values && ME in n.conns
    && x !in CoalesceAll(n.pub.feed).dropped
  }

  lemma HauntedStep(n: Net, act: Act, x: Addr)
    requires Haunted(n, x) && !About(n, act, x) && act != Close(ME)
    ensures Haunted(Perform(n, act), x)
  {
    hide Settled, CoalesceAll, Covered;
    if act.Share? {
      SettledShare(n, x);
    } else {
      SettledStep(n, act, x);
    }
  }

  /** It keeps that address through every run of acts of other addresses, as long as it stays connected itself. */
  lemma {:induction false} StaysHaunted(n: Net, acts: seq<Act>, x: Addr)
    requires Haunted(n, x) && NotAbout(n, acts, x) && Close(ME) !in acts
    ensures Haunted(PerformAll(n, acts), x)
    decreases |acts|
  {
    if acts != [] {
      HauntedStep(n, acts[0], x);
      hide Haunted, Perform, About;
      StaysHaunted(Perform(n, acts[0]), acts[1..], x);
    }
  }
}

/**
  Peer exchange (BEP 11): a feed of connections and disconnections, told to each peer as an
  initial message and coalesced deltas. The receiver's picture is compared with the feed itself.
*/
module Pex {
  import opened Collections
  import opened Outcomes

  datatype Addr = V4(ip: nat, port: nat) | V6(ip: nat, port: nat)
  type Flags = nat

  const MAX_DELTA: nat := 50
  const TARGET_ADDED: nat := 25
  const MAX_HOLD: nat := 25

  datatype Event = Added(addr: Addr, flags: Flags) | Dropped(addr: Addr)

  // ---------- the feed itself ----------

  /** The addresses connected after the events, starting from `live`. */
  function Live(live: set<Addr>, es: seq<Event>): set<Addr> {
    if es == [] then live else After(Live(live, es[..|es| - 1]), es[|es| - 1])
  }

  function After(live: set<Addr>, e: Event): set<Addr> {
    if e.Added? then live + {e.addr} else live - {e.addr}
  }

  /** The event is news: an address is added when it is not connected and dropped when it is. */
  predicate News(live: set<Addr>, e: Event) {
    e.Added? <==> e.addr !in live
  }

  /** Events of each address alternate, beginning with what is news to `live`. */
  predicate Alternates(live: set<Addr>, es: seq<Event>) {
    es == [] || (Alternates(live, es[..|es| - 1]) && News(Live(live, es[..|es| - 1]), es[|es| - 1]))
  }

  lemma {:induction false} Split(live: set<Addr>, a: seq<Event>, b: seq<Event>)
    ensures Live(live, a + b) == Live(Live(live, a), b)
    ensures Alternates(live, a + b) <==> Alternates(live, a) && Alternates(Live(live, a), b)
    decreases |b|
  {
    if b == [] {
      assert a + b == a;
    } else {
      var front := b[..|b| - 1];
      assert (a + b)[..|a + b| - 1] == a + front;
      Split(live, a, front);
    }
  }

  // ---------- coalescing ----------

  /** What a message says: addresses to add, with their flags, and addresses to drop. */
  datatype Delta = Delta(added: map<Addr, Flags>, dropped: set<Addr>) {
    function Size(): nat {
      if |added.Keys| > |dropped| then |added.Keys| else |dropped|
    }
  }

  const NOTHING := Delta(map[], {})

  /** An event that undoes what the delta says cancels it; a repeated one is ignored. */
  function Coalesce(d: Delta, e: Event): Delta {
    match e
    case Added(a, f) =>
      if a in d.added then d
      else if a in d.dropped then d.(dropped := d.dropped - {a})
      else d.(added := d.added[a := f])
    case Dropped(a) =>
      if a in d.dropped then d
      else if a in d.added then d.(added := d.added - {a})
      else d.(dropped := d.dropped + {a})
  }

  function CoalesceAll(es: seq<Event>): Delta {
    if es == [] then NOTHING else Coalesce(CoalesceAll(es[..|es| - 1]), es[|es| - 1])
  }

  /** For alternating events the delta is exactly the difference between before and after. */
  lemma {:induction false} DeltaIsDifference(live: set<Addr>, es: seq<Event>)
    requires Alternates(live, es)
    ensures var d := CoalesceAll(es); d.added.Keys == Live(live, es) - live && d.dropped == live - Live(live, es)
  {
    if es != [] {
      DeltaIsDifference(live, es[..|es| - 1]);
    }
  }

  /** What is told to be dropped is never also told to be added, whatever the events. */
  lemma {:induction false} NeverBoth(es: seq<Event>)
    ensures var d := CoalesceAll(es); d.added.Keys !! d.dropped
  {
    if es != [] {
      NeverBoth(es[..|es| - 1]);
    }
  }

  /** Every address added comes with the flags of one of its own events. */
  lemma {:induction false} FlagsComeFromEvents(es: seq<Event>, a: Addr)
    requires a in CoalesceAll(es).added
    ensures Added(a, CoalesceAll(es).added[a]) in es
  {
    var front := es[..|es| - 1];
    if a in CoalesceAll(front).added {
      FlagsComeFromEvents(front, a);
    }
  }

  // ---------- messages ----------

  /** The delta of one stretch of the feed. */
  function DeltaOf(feed: seq<Event>, start: nat, n: nat): Delta
    requires start <= n <= |feed|
  {
    CoalesceAll(feed[start..n])
  }

  /** How far a delta goes from position `k`: to the end, or until it is full. */
  function Covered(feed: seq<Event>, start: nat, k: nat): (n: nat)
    requires start <= k <= |feed|
    ensures k <= n <= |feed|
    decreases |feed| - k
  {
    if k == |feed| || DeltaOf(feed, start, k).Size() >= MAX_DELTA then k else Covered(feed, start, k + 1)
  }

  /** The message for a cursor and where it brings the cursor; position zero stands for no cursor yet. */
  function Genmsg(feed: seq<Event>, start: nat): (Delta, nat)
    requires start <= |feed|
  {
    if start == 0 then (CoalesceAll(feed), |feed|)
    else
      var n := Covered(feed, start, start);
      (DeltaOf(feed, start, n), n)
  }

  lemma CoalesceGrows(d: Delta, e: Event)
    ensures Coalesce(d, e).Size() <= d.Size() + 1
  {
    var d1 := Coalesce(d, e);
    assert d1.added.Keys <= d.added.Keys + {e.addr} && d1.dropped <= d.dropped + {e.addr};
    hide Coalesce;
    SubsetSize(d1.added.Keys, d.added.Keys + {e.addr});
    SubsetSize(d1.dropped, d.dropped + {e.addr});
  }

  lemma OneMore(feed: seq<Event>, start: nat, k: nat)
    requires start <= k < |feed|
    ensures DeltaOf(feed, start, k + 1) == Coalesce(DeltaOf(feed, start, k), feed[k])
  {
    hide Coalesce;
    assert feed[start..k + 1][..k - start] == feed[start..k];
  }

  lemma {:induction false} CoveredBounded(feed: seq<Event>, start: nat, k: nat)
    requires start <= k <= |feed| && DeltaOf(feed, start, k).Size() <= MAX_DELTA
    ensures DeltaOf(feed, start, Covered(feed, start, k)).Size() <= MAX_DELTA
    ensures Covered(feed, start, k) < |feed| ==> DeltaOf(feed, start, Covered(feed, start, k)).Size() == MAX_DELTA
    decreases |feed| - k
  {
    hide DeltaOf, Coalesce, Delta.Size;
    if k < |feed| && DeltaOf(feed, start, k).Size() < MAX_DELTA {
      OneMore(feed, start, k);
      CoalesceGrows(DeltaOf(feed, start, k), feed[k]);
      CoveredBounded(feed, start, k + 1);
    }
  }

  /** A delta adds at most fifty addresses and drops at most fifty; less than that only at the end of the feed. */
  lemma DeltasAreBounded(feed: seq<Event>, start: nat)
    requires 0 < start <= |feed|
    ensures var (d, n) := Genmsg(feed, start);
            && |d.added.Keys| <= 50 && |d.dropped| <= 50
            && (n < |feed| ==> |d.added.Keys| == 50 || |d.dropped| == 50)
  {
    assert feed[start..start] == [];
    CoveredBounded(feed, start, start);
  }

  // ---------- a peer being told ----------

  /** The feed, how far one peer has been told, and what that peer believes. */
  datatype Session = Session(feed: seq<Event>, cursor: nat, believed: map<Addr, Flags>)

  /** Receiving: drops first, then adds. */
  function Receive(believed: map<Addr, Flags>, d: Delta): map<Addr, Flags> {
    (believed - d.dropped) + d.added
  }

  /** An empty message is not sent and leaves the cursor where it was. */
  function Send(s: Session): Session
    requires s.cursor <= |s.feed|
  {
    var (d, n) := Genmsg(s.feed, s.cursor);
    if d == NOTHING then s else Session(s.feed, n, Receive(s.believed, d))
  }

  datatype Step = Happens(e: Event) | Tell

  ghost predicate Allowed(s: Session, step: Step) {
    step.Happens? ==> News(Live({}, s.feed), step.e)
  }

  function Next(s: Session, step: Step): Session
    requires s.cursor <= |s.feed|
  {
    match step
    case Happens(e) => s.(feed := s.feed + [e])
    case Tell => Send(s)
  }

  ghost predicate Inv(s: Session) {
    && s.cursor <= |s.feed| && Alternates({}, s.feed)
    && s.believed.Keys == Live({}, s.feed[..s.cursor])
    && forall a :: a in s.believed ==> Added(a, s.believed[a]) in s.feed[..s.cursor]
  }

  lemma Segment(feed: seq<Event>, start: nat, n: nat)
    requires start <= n <= |feed| && Alternates({}, feed)
    ensures Alternates({}, feed[..start]) && Alternates(Live({}, feed[..start]), feed[start..n])
    ensures Live({}, feed[..n]) == Live(Live({}, feed[..start]), feed[start..n])
  {
    assert feed == feed[..n] + feed[n..];
    Split({}, feed[..n], feed[n..]);
    assert feed[..n] == feed[..start] + feed[start..n];
    Split({}, feed[..start], feed[start..n]);
  }

  /** Telling a peer the segment after its cursor brings its belief to the new cursor. */
  lemma Told(s: Session, n: nat)
    requires Inv(s) && s.cursor <= n <= |s.feed|
    ensures Inv(Session(s.feed, n, Receive(s.believed, DeltaOf(s.feed, s.cursor, n))))
  {
    var news := s.feed[s.cursor..n];
    var d := CoalesceAll(news);
    var believed := Receive(s.believed, d);
    Segment(s.feed, s.cursor, n);
    DeltaIsDifference(Live({}, s.feed[..s.cursor]), news);
    assert believed.Keys == Live({}, s.feed[..n]);
    assert s.feed[..n] == s.feed[..s.cursor] + news;
    forall a | a in believed ensures Added(a, believed[a]) in s.feed[..n] {
      if a in d.added {
        FlagsComeFromEvents(news, a);
      }
    }
  }

  lemma SendKeeps(s: Session)
    requires Inv(s)
    ensures Inv(Send(s))
  {
    var (d, n) := Genmsg(s.feed, s.cursor);
    assert s.cursor == 0 ==> s.feed[0..n] == s.feed;
    Told(s, n);
  }

  /** After a message that reaches the end of the feed, the peer's picture is the feed's, sent or not. */
  lemma CaughtUp(s: Session)
    requires Inv(s) && Genmsg(s.feed, s.cursor).1 == |s.feed|
    ensures Send(s).believed.Keys == Live({}, s.feed)
  {
    var (d, n) := Genmsg(s.feed, s.cursor);
    SendKeeps(s);
    assert s.feed[..|s.feed|] == s.feed;
    hide Live, Alternates, CoalesceAll, Covered;
    if d == NOTHING {
      assert s.cursor == 0 ==> s.feed[0..n] == s.feed;
      Told(s, n);
      assert Receive(s.believed, NOTHING) == s.believed;
    }
  }

  ghost function Run(s: Session, steps: seq<Step>): Session
    requires AllowedRun(s, steps)
    decreases |steps|
  {
    if steps == [] then s else Run(Next(s, steps[0]), steps[1..])
  }

  lemma {:induction false} RunKeeps(s: Session, steps: seq<Step>)
    requires Inv(s) && AllowedRun(s, steps)
    ensures Inv(Run(s, steps))
    decreases |steps|
  {
    hide Inv, Next;
    if steps != [] {
      NextKeeps(s, steps[0]);
      RunKeeps(Next(s, steps[0]), steps[1..]);
    }
  }

  ghost predicate AllowedRun(s: Session, steps: seq<Step>)
    decreases |steps|
  {
    steps == [] ||
    (s.cursor <= |s.feed| && Allowed(s, steps[0]) && AllowedRun(Next(s, steps[0]), steps[1..]))
  }

  lemma NextKeeps(s: Session, step: Step)
    requires Inv(s) && Allowed(s, step)
    ensures Inv(Next(s, step))
  {
    match step
    case Tell => SendKeeps(s);
    case Happens(e) =>
      assert (s.feed + [e])[..|s.feed|] == s.feed;
      assert (s.feed + [e])[..s.cursor] == s.feed[..s.cursor];
  }

  const FRESH := Session([], 0, map[])

  /** Whatever happens and whenever messages go out, the peer believes exactly the feed up to its cursor. */
  lemma PeerBelievesTheFeed(steps: seq<Step>)
    requires AllowedRun(FRESH, steps)
    ensures var s := Run(FRESH, steps);
            && s.cursor <= |s.feed|
            && s.believed.Keys == Live({}, s.feed[..s.cursor])
            && forall a :: a in s.believed ==> Added(a, s.believed[a]) in s.feed[..s.cursor]
  {
    assert FRESH.feed[..0] == [];
    RunKeeps(FRESH, steps);
  }

  // ---------- feeds that do not alternate ----------

  /** Whatever the events, a delta says nothing wrong: only its silence about an address can mislead. */
  lemma {:induction false} SpokenIsRight(live: set<Addr>, es: seq<Event>)
    ensures var d := CoalesceAll(es); d.added.Keys <= Live(live, es) && d.dropped !! Live(live, es)
  {
    if es != [] {
      SpokenIsRight(live, es[..|es| - 1]);
    }
  }

  /** The last event of the address that was no news when it happened: a repeated add, or a drop of what was not connected. */
  function LastStale(live: set<Addr>, es: seq<Event>, a: Addr): Option<Event>
    decreases |es|
  {
    if es == [] then None
    else
      var front, e := es[..|es| - 1], es[|es| - 1];
      if e.addr == a && !News(Live(live, front), e) then Some(e) else LastStale(live, front, a)
  }

  /**
    Exactly what a delta says, for any events at all. An address is told as added when it is connected in the end, and
    its last stale event was an add, or it had none and was not connected before. Drops are told symmetrically.
  */
  lemma {:induction false} SaidAbout(live: set<Addr>, es: seq<Event>, a: Addr)
    ensures var d, last := CoalesceAll(es), LastStale(live, es, a);
            && (a in d.added <==> a in Live(live, es) && (if last.Some? then last.value.Added? else a !in live))
            && (a in d.dropped <==> a !in Live(live, es) && (if last.Some? then last.value.Dropped? else a in live))
    decreases |es|
  {
    if es != [] {
      SaidAbout(live, es[..|es| - 1], a);
    }
  }

  /** The address changed hands one way while its last stale event hides it from the delta. */
  ghost predicate Hidden(live: set<Addr>, es: seq<Event>, a: Addr) {
    var last := LastStale(live, es, a);
    last.Some? && if last.value.Added? then a in live && a !in Live(live, es) else a !in live && a in Live(live, es)
  }

  /** A receiver that was right before any events is right after their delta exactly when they hide no change. */
  lemma DeltaIsRight(live: map<Addr, Flags>, es: seq<Event>)
    ensures Receive(live, CoalesceAll(es)).Keys == Live(live.Keys, es) <==> forall a :: !Hidden(live.Keys, es, a)
  {
    var after, end := Receive(live, CoalesceAll(es)).Keys, Live(live.Keys, es);
    forall a ensures (a in after <==> a in end) <==> !Hidden(live.Keys, es, a) {
      SaidAbout(live.Keys, es, a);
    }
    hide CoalesceAll, Live, Hidden;
    if forall a :: !Hidden(live.Keys, es, a) {
      assert after == end;
    }
  }

  /** The last stale event of the address, counted from the start of the feed, was a drop. */
  ghost predicate StaleDrop(feed: seq<Event>, a: Addr) {
    var last := LastStale({}, feed, a); last.Some? && last.value.Dropped?
  }

  /** The initial message is the connected addresses exactly when no address has a drop as its last stale event. */
  lemma InitialIsWhole(feed: seq<Event>)
    ensures CoalesceAll(feed).added.Keys == Live({}, feed) && CoalesceAll(feed).dropped == {} <==>
              forall a :: !StaleDrop(feed, a)
  {
    var d, live := CoalesceAll(feed), Live({}, feed);
    forall a ensures (a in d.added <==> a in live && !StaleDrop(feed, a)) && (a in d.dropped <==> a !in live && StaleDrop(feed, a)) {
      SaidAbout({}, feed, a);
    }
    hide CoalesceAll, Live, StaleDrop;
    if forall a :: !StaleDrop(feed, a) {
      assert d.added.Keys == live && d.dropped == {};
    }
  }

  /** What starting over needs of one address: believed before if its last stale event was a drop, connected if not. */
  ghost predicate RestartsRight(feed: seq<Event>, believed: set<Addr>, a: Addr) {
    if StaleDrop(feed, a) then a in Live({}, feed) ==> a in believed else a in believed ==> a in Live({}, feed)
  }

  /**
    A second extended handshake clears the sender's cursor while the receiver keeps its records. For any feed the next
    message puts the receiver right exactly when every address allows it.
  */
  lemma RestartIsRight(feed: seq<Event>, believed: map<Addr, Flags>)
    ensures Send(Session(feed, 0, believed)).believed.Keys == Live({}, feed) <==>
              forall a :: RestartsRight(feed, believed.Keys, a)
  {
    var after, live := Send(Session(feed, 0, believed)).believed.Keys, Live({}, feed);
    assert Receive(believed, NOTHING) == believed;
    forall a ensures (a in after <==> a in live) <==> RestartsRight(feed, believed.Keys, a) {
      SaidAbout({}, feed, a);
    }
    hide CoalesceAll, Live, RestartsRight, Send;
    if forall a :: RestartsRight(feed, believed.Keys, a) {
      assert after == live;
    }
  }

  /** So with no such drop it only adds, and is right exactly when the receiver held no address that has since gone. */
  lemma RestartOnlyAdds(feed: seq<Event>, believed: map<Addr, Flags>)
    requires forall a :: !StaleDrop(feed, a)
    ensures Send(Session(feed, 0, believed)).believed.Keys == believed.Keys + Live({}, feed)
  {
    InitialIsWhole(feed);
    var d := CoalesceAll(feed);
    if d == NOTHING {
      assert Live({}, feed) == {};
    } else {
      assert Receive(believed, d).Keys == believed.Keys + d.added.Keys;
    }
  }

  /** Alternating events are never stale. */
  lemma {:induction false} NeverStale(live: set<Addr>, es: seq<Event>, a: Addr)
    requires Alternates(live, es)
    ensures LastStale(live, es, a) == None
    decreases |es|
  {
    if es != [] {
      NeverStale(live, es[..|es| - 1], a);
    }
  }

  // ---------- events of other addresses ----------

  predicate NoEvent(es: seq<Event>, a: Addr) {
    forall e :: e in es ==> e.addr != a
  }

  /** Events of other addresses change nothing about this one. */
  lemma {:induction false} Elsewhere(live: set<Addr>, es: seq<Event>, more: seq<Event>, a: Addr)
    requires NoEvent(more, a)
    ensures a in Live(live, es + more) <==> a in Live(live, es)
    ensures LastStale(live, es + more, a) == LastStale(live, es, a)
    ensures var d, d1 := CoalesceAll(es), CoalesceAll(es + more);
            (a in d1.added <==> a in d.added) && (a in d1.dropped <==> a in d.dropped)
    decreases |more|
  {
    if more == [] {
      assert es + more == es;
    } else {
      var front := more[..|more| - 1];
      assert (es + more)[..|es + more| - 1] == es + front;
      Elsewhere(live, es, front, a);
    }
  }
}

/** The objects behind peer exchange: message factory, per-torrent feed with its hold buffer, per-connection cursor. */
module PexFeeds {
  import opened Collections
  import opened Outcomes
  import opened Pex

  /** The wire message: address lists per family, with flags in lists of their own. */
  datatype PexMsg = PexMsg(
    added: seq<Addr>, addedFlags: seq<Flags>,
    added6: seq<Addr>, added6Flags: seq<Flags>,
    dropped: seq<Addr>, dropped6: seq<Addr>)
  {
    function Len(): nat {
      |added| + |added6| + |dropped| + |dropped6|
    }
  }

  const EMPTY_MSG := PexMsg([], [], [], [], [], [])

  /** Lists of distinct addresses, each in the list of its family, with one flag byte per added address. */
  predicate WellFormed(m: PexMsg) {
    && |m.added| == |m.addedFlags| && |m.added6| == |m.added6Flags|
    && NoDup(m.added) && NoDup(m.added6) && NoDup(m.dropped) && NoDup(m.dropped6)
    && (forall a :: a in m.added ==> a.V4?) && (forall a :: a in m.added6 ==> a.V6?)
    && (forall a :: a in m.dropped ==> a.V4?) && (forall a :: a in m.dropped6 ==> a.V6?)
  }

  ghost function At(addrs: seq<Addr>, a: Addr): (i: nat)
    requires a in addrs
    ensures i < |addrs| && addrs[i] == a
  {
    var i :| 0 <= i < |addrs| && addrs[i] == a;
    i
  }

  /** Each address of the first list with the flags at its place in the second. */
  ghost function Zip(addrs: seq<Addr>, flags: seq<Flags>): (m: map<Addr, Flags>)
    requires |addrs| == |flags|
    ensures forall a :: a in m <==> a in addrs
  {
    map a | a in addrs :: flags[At(addrs, a)]
  }

  /** What a message says. */
  ghost function Says(m: PexMsg): Delta
    requires WellFormed(m)
  {
    Delta(Zip(m.added, m.addedFlags) + Zip(m.added6, m.added6Flags), Elements(m.dropped) + Elements(m.dropped6))
  }

  function Without<T>(s: seq<T>, i: nat): seq<T>
    requires i < |s|
  {
    s[..i] + s[i + 1..]
  }

  lemma ZipAt(addrs: seq<Addr>, flags: seq<Flags>, i: nat)
    requires |addrs| == |flags| && i < |addrs| && NoDup(addrs)
    ensures Zip(addrs, flags)[addrs[i]] == flags[i]
  {
    assert At(addrs, addrs[i]) == i;
  }

  lemma ZipSnoc(addrs: seq<Addr>, flags: seq<Flags>, a: Addr, f: Flags)
    requires |addrs| == |flags| && NoDup(addrs) && a !in addrs
    ensures Zip(addrs + [a], flags + [f]) == Zip(addrs, flags)[a := f]
  {
    var xs, fs := addrs + [a], flags + [f];
    SetSnoc(addrs, a);
    forall x | x in xs ensures Zip(xs, fs)[x] == Zip(addrs, flags)[a := f][x] {
      var i := At(xs, x);
      ZipAt(xs, fs, i);
      if i < |addrs| {
        ZipAt(addrs, flags, i);
      }
    }
  }

  /** Changing the half of a joined map that holds the key. */
  lemma JoinTake<K, V>(a: map<K, V>, b: map<K, V>, k: K)
    ensures k !in b ==> (a - {k}) + b == (a + b) - {k}
    ensures k !in a ==> a + (b - {k}) == (a + b) - {k}
  {
  }

  lemma JoinPut<K, V>(a: map<K, V>, b: map<K, V>, k: K, v: V)
    ensures k !in b ==> a[k := v] + b == (a + b)[k := v]
    ensures a + b[k := v] == (a + b)[k := v]
  {
  }

  lemma WithoutMembers(addrs: seq<Addr>, i: nat)
    requires i < |addrs| && NoDup(addrs)
    ensures forall x :: x in Without(addrs, i) <==> x in addrs && x != addrs[i]
  {
    SetWithout(addrs, i);
    forall x ensures x in Without(addrs, i) <==> x in addrs && x != addrs[i] {
      assert x in Without(addrs, i) <==> x in Elements(Without(addrs, i));
      assert x in addrs <==> x in Elements(addrs);
    }
  }

  /** Taking out one position of both lists takes out that address: flags stay aligned. */
  lemma ZipWithout(addrs: seq<Addr>, flags: seq<Flags>, i: nat)
    requires |addrs| == |flags| && i < |addrs| && NoDup(addrs)
    ensures Zip(Without(addrs, i), Without(flags, i)) == Zip(addrs, flags) - {addrs[i]}
  {
    var xs, fs := Without(addrs, i), Without(flags, i);
    SetWithout(addrs, i);
    WithoutMembers(addrs, i);
    hide Zip, Elements;
    forall x | x in xs ensures Zip(xs, fs)[x] == Zip(addrs, flags)[x] {
      var k := At(xs, x);
      ZipAt(xs, fs, k);
      ZipAt(addrs, flags, if k < i then k else k + 1);
    }
  }

  lemma SetWithout(addrs: seq<Addr>, i: nat)
    requires i < |addrs| && NoDup(addrs)
    ensures Elements(Without(addrs, i)) == Elements(addrs) - {addrs[i]} && NoDup(Without(addrs, i))
  {
    var w := Without(addrs, i);
    forall a | a in addrs && a != addrs[i] ensures a in w {
      var j :| 0 <= j < |addrs| && addrs[j] == a;
      assert if j < i then w[j] == a else w[j - 1] == a;
    }
  }

  lemma SetSnoc(addrs: seq<Addr>, a: Addr)
    requires NoDup(addrs) && a !in addrs
    ensures Elements(addrs + [a]) == Elements(addrs) + {a} && NoDup(addrs + [a])
  {
  }

  /** Position of an address in a list, or minus one. */
  method Index(addrs: seq<Addr>, a: Addr) returns (i: int)
    ensures -1 <= i < |addrs|
    ensures i >= 0 ==> addrs[i] == a
    ensures i < 0 ==> a !in addrs
  {
    i := 0;
    while i < |addrs|
      invariant 0 <= i <= |addrs| && a !in addrs[..i]
    {
      if addrs[i] == a {
        return;
      }
      i := i + 1;
    }
    i := -1;
  }

  // ---------- message edits ----------

  ghost predicate Edits(m: PexMsg, m1: PexMsg, d: Delta) {
    WellFormed(m) && WellFormed(m1) && Says(m1) == d
  }

  method Undrop(m: PexMsg, a: Addr) returns (m1: PexMsg)
    requires WellFormed(m) && a in Says(m).dropped
    ensures Edits(m, m1, Says(m).(dropped := Says(m).dropped - {a}))
  {
    if a.V4? {
      var i := Index(m.dropped, a);
      m1 := m.(dropped := Without(m.dropped, i));
      SetWithout(m.dropped, i);
      assert a !in Elements(m.dropped6);
    } else {
      var i := Index(m.dropped6, a);
      m1 := m.(dropped6 := Without(m.dropped6, i));
      SetWithout(m.dropped6, i);
      assert a !in Elements(m.dropped);
    }
  }

  method Unadd(m: PexMsg, a: Addr) returns (m1: PexMsg)
    requires WellFormed(m) && a in Says(m).added
    ensures Edits(m, m1, Says(m).(added := Says(m).added - {a}))
  {
    hide Zip;
    JoinTake(Zip(m.added, m.addedFlags), Zip(m.added6, m.added6Flags), a);
    if a.V4? {
      var i := Index(m.added, a);
      SetWithout(m.added, i);
      ZipWithout(m.added, m.addedFlags, i);
      m1 := m.(added := Without(m.added, i), addedFlags := Without(m.addedFlags, i));
    } else {
      var i := Index(m.added6, a);
      SetWithout(m.added6, i);
      ZipWithout(m.added6, m.added6Flags, i);
      m1 := m.(added6 := Without(m.added6, i), added6Flags := Without(m.added6Flags, i));
    }
  }

  method PutAdded(m: PexMsg, a: Addr, f: Flags) returns (m1: PexMsg)
    requires WellFormed(m) && a !in Says(m).added
    ensures Edits(m, m1, Says(m).(added := Says(m).added[a := f]))
  {
    hide Zip;
    JoinPut(Zip(m.added, m.addedFlags), Zip(m.added6, m.added6Flags), a, f);
    if a.V4? {
      SetSnoc(m.added, a);
      ZipSnoc(m.added, m.addedFlags, a, f);
      m1 := m.(added := m.added + [a], addedFlags := m.addedFlags + [f]);
    } else {
      SetSnoc(m.added6, a);
      ZipSnoc(m.added6, m.added6Flags, a, f);
      m1 := m.(added6 := m.added6 + [a], added6Flags := m.added6Flags + [f]);
    }
  }

  method PutDropped(m: PexMsg, a: Addr) returns (m1: PexMsg)
    requires WellFormed(m) && a !in Says(m).dropped
    ensures Edits(m, m1, Says(m).(dropped := Says(m).dropped + {a}))
  {
    if a.V4? {
      m1 := m.(dropped := m.dropped + [a]);
      SetSnoc(m.dropped, a);
    } else {
      m1 := m.(dropped6 := m.dropped6 + [a]);
      SetSnoc(m.dropped6, a);
    }
  }

  class MsgFactory {
    var msg: PexMsg
    var added: set<Addr>
    var dropped: set<Addr>

    ghost predicate Valid()
      reads this
    {
      WellFormed(msg) && added == Says(msg).added.Keys && dropped == Says(msg).dropped
    }

    /** What the message says so far. */
    ghost function Saying(): Delta
      requires Valid()
      reads this
    {
      Says(msg)
    }

    constructor ()
      ensures Valid() && Saying() == NOTHING
    {
      msg, added, dropped := EMPTY_MSG, {}, {};
    }

    method DeltaLen() returns (n: nat)
      requires Valid()
      ensures n == Saying().Size()
    {
      n := if |added| > |dropped| then |added| else |dropped|;
    }

    method Add(a: Addr, f: Flags)
      requires Valid()
      modifies this
      ensures Valid() && Saying() == Coalesce(old(Saying()), Added(a, f))
    {
      hide Says, WellFormed;
      if a in added {
        return;
      }
      if a in dropped {
        msg := Undrop(msg, a);
        dropped := dropped - {a};
        return;
      }
      msg := PutAdded(msg, a, f);
      added := added + {a};
    }

    method Drop(a: Addr)
      requires Valid()
      modifies this
      ensures Valid() && Saying() == Coalesce(old(Saying()), Dropped(a))
    {
      hide Says, WellFormed;
      if a in dropped {
        return;
      }
      if a in added {
        msg := Unadd(msg, a);
        added := added - {a};
        return;
      }
      msg := PutDropped(msg, a);
      dropped := dropped + {a};
    }

    method Message() returns (m: PexMsg)
      requires Valid()
      ensures WellFormed(m) && Says(m) == Saying()
    {
      m := msg;
    }

    method Append(e: Event)
      requires Valid()
      modifies this
      ensures Valid() && Saying() == Coalesce(old(Saying()), e)
    {
      match e
      case Added(a, f) => Add(a, f);
      case Dropped(a) => Drop(a);
    }
  }

  // ---------- the feed and its hold buffer ----------

  /** Drops are held back while few connections are alive. */
  datatype Publisher = Publisher(feed: seq<Event>, hold: seq<Event>, alive: int)

  function AddConn(p: Publisher, a: Addr, f: Flags): Publisher {
    var flushed := if p.alive + 1 >= TARGET_ADDED then p.(feed := p.feed + p.hold, hold := []) else p;
    flushed.(feed := flushed.feed + [Added(a, f)], alive := p.alive + 1)
  }

  function DropConn(p: Publisher, a: Addr): Publisher {
    if p.alive - 1 < TARGET_ADDED && |p.hold| < MAX_HOLD then p.(hold := p.hold + [Dropped(a)], alive := p.alive - 1)
    else p.(feed := p.feed + [Dropped(a)], alive := p.alive - 1)
  }

  /** A disconnection is held back exactly while fewer than 25 connections are left and fewer than 25 are held back. */
  lemma HeldBack(p: Publisher, a: Addr)
    ensures var p1 := DropConn(p, a);
            && p1.alive == p.alive - 1
            && if p1.alive < 25 && |p.hold| < 25 then p1.feed == p.feed && p1.hold == p.hold + [Dropped(a)]
               else p1.feed == p.feed + [Dropped(a)] && p1.hold == p.hold
  {
  }

  /** A connection releases everything held back exactly when it makes at least 25, and is then told after it. */
  lemma Releases(p: Publisher, a: Addr, f: Flags)
    ensures var p1 := AddConn(p, a, f);
            && p1.alive == p.alive + 1
            && if p1.alive >= 25 then p1.feed == p.feed + p.hold + [Added(a, f)] && p1.hold == []
               else p1.feed == p.feed + [Added(a, f)] && p1.hold == p.hold
  {
  }

  class PexState {
    var feed: seq<Event>     // the linked list of events, oldest first
    var hold: seq<Event>
    var nc: int
    const msg0: MsgFactory

    ghost predicate Valid()
      reads this, msg0
    {
      msg0.Valid() && msg0.Saying() == CoalesceAll(feed)
    }

    ghost function View(): Publisher
      reads this
    {
      Publisher(feed, hold, nc)
    }

    constructor ()
      ensures Valid() && fresh(msg0) && View() == Publisher([], [], 0)
    {
      feed, hold, nc := [], [], 0;
      msg0 := new MsgFactory();
    }

    method Append(e: Event)
      requires Valid()
      modifies this`feed, msg0
      ensures Valid() && feed == old(feed) + [e]
    {
      feed := feed + [e];
      assert feed[..|feed| - 1] == old(feed);
      msg0.Append(e);
    }

    method Add(c: PexConn, a: Addr, f: Flags)
      requires Valid()
      modifies this, msg0, c`listed
      ensures Valid() && View() == AddConn(old(View()), a, f) && c.listed
    {
      hide MsgFactory.Valid, MsgFactory.Saying, CoalesceAll;
      nc := nc + 1;
      if nc >= TARGET_ADDED {
        for i := 0 to |hold|
          invariant Valid() && hold == old(hold) && nc == old(nc) + 1
          invariant feed == old(feed) + hold[..i]
        {
          Append(hold[i]);
          assert hold[..i + 1] == hold[..i] + [hold[i]];
        }
        assert hold[..|hold|] == hold;
        hold := [];
      }
      c.listed := true;
      Append(Added(a, f));
    }

    /** Connections never added are skipped. */
    method Drop(c: PexConn, a: Addr)
      requires Valid()
      modifies this, msg0
      ensures Valid() && View() == if c.listed then DropConn(old(View()), a) else old(View())
    {
      hide MsgFactory.Valid, MsgFactory.Saying, CoalesceAll;
      if !c.listed {
        return;
      }
      nc := nc - 1;
      if nc < TARGET_ADDED && |hold| < MAX_HOLD {
        hold := hold + [Dropped(a)];
      } else {
        Append(Dropped(a));
      }
    }

    /** The message for a cursor, and the cursor it leads to. */
    method GenerateMsg(start: nat) returns (tx: PexMsg, last: nat)
      requires Valid() && start <= |feed|
      ensures WellFormed(tx) && (Says(tx), last) == Genmsg(feed, start)
    {
      if start == 0 {
        tx := msg0.Message();
        last := |feed|;
      } else {
        tx, last := DeltaFrom(feed, start);
      }
    }
  }

  /** Walks the feed from the cursor until the end, or until the delta is full. */
  method DeltaFrom(feed: seq<Event>, start: nat) returns (tx: PexMsg, last: nat)
    requires start <= |feed|
    ensures WellFormed(tx) && last == Covered(feed, start, start) && Says(tx) == DeltaOf(feed, start, last)
  {
    NoDelta(feed, start);
    hide Says, WellFormed, DeltaOf, Coalesce, Covered, Delta.Size, MsgFactory.Valid, MsgFactory.Saying;
    var msg := new MsgFactory();
    last := start;
    var n := msg.DeltaLen();
    while last < |feed| && n < MAX_DELTA
      invariant start <= last <= |feed|
      invariant fresh(msg) && msg.Valid() && msg.Saying() == DeltaOf(feed, start, last)
      invariant n == DeltaOf(feed, start, last).Size()
      decreases |feed| - last
      invariant Covered(feed, start, start) == Covered(feed, start, last)
    {
      OneMore(feed, start, last);
      CoveredUnfolds(feed, start, last);
      msg.Append(feed[last]);
      last := last + 1;
      n := msg.DeltaLen();
    }
    CoveredUnfolds(feed, start, last);
    tx := msg.Message();
  }

  lemma NoDelta(feed: seq<Event>, start: nat)
    requires start <= |feed|
    ensures DeltaOf(feed, start, start) == NOTHING
  {
    assert feed[start..start] == [];
  }

  lemma CoveredUnfolds(feed: seq<Event>, start: nat, k: nat)
    requires start <= k <= |feed|
    ensures Covered(feed, start, k) ==
            if k == |feed| || DeltaOf(feed, start, k).Size() >= MAX_DELTA then k else Covered(feed, start, k + 1)
  {
  }

  // ---------- one connection ----------

  /** A received list of additions, flags where there are enough of them. */
  function Heard(m: map<Addr, Option<Flags>>, addrs: seq<Addr>, flags: seq<Flags>): map<Addr, Option<Flags>> {
    if addrs == [] then m
    else
      var n := |addrs| - 1;
      Heard(m, addrs[..n], flags)[addrs[n] := if n < |flags| then Some(flags[n]) else None]
  }

  /** A received list: each address with the flags at its place, without flags where the list of flags is too short. */
  lemma {:induction false} HeardAt(m: map<Addr, Option<Flags>>, addrs: seq<Addr>, flags: seq<Flags>, i: nat, x: Addr)
    requires NoDup(addrs)
    ensures i < |addrs| ==>
              && addrs[i] in Heard(m, addrs, flags)
              && Heard(m, addrs, flags)[addrs[i]] == if i < |flags| then Some(flags[i]) else None
    ensures x !in addrs ==> (x in Heard(m, addrs, flags) <==> x in m) && (x in m ==> Heard(m, addrs, flags)[x] == m[x])
    decreases |addrs|
  {
    if addrs != [] {
      HeardAt(m, addrs[..|addrs| - 1], flags, i, x);
    }
  }

  function ReceiveMsg(m: map<Addr, Option<Flags>>, rx: PexMsg): map<Addr, Option<Flags>> {
    Heard(Heard(m - Elements(rx.dropped) - Elements(rx.dropped6), rx.added, rx.addedFlags), rx.added6, rx.added6Flags)
  }

  /** Beliefs as the receiver stores them. */
  function Stored(m: map<Addr, Flags>): map<Addr, Option<Flags>> {
    map a | a in m :: Some(m[a])
  }

  class PexConn {
    var last: nat
    var listed: bool
    var remoteLiveConns: map<Addr, Option<Flags>>

    constructor ()
      ensures last == 0 && !listed && remoteLiveConns == map[]
    {
      last, listed, remoteLiveConns := 0, false, map[];
    }

    /** The next message to send, if there is anything to say. */
    method NextMsg(s: PexState) returns (tx: Option<PexMsg>)
      requires s.Valid() && last <= |s.feed|
      modifies this`last
      ensures var (d, n) := Genmsg(s.feed, old(last));
              if d == NOTHING then tx == None && last == old(last)
              else tx.Some? && WellFormed(tx.value) && Says(tx.value) == d && last == n
    {
      var msg, next := s.GenerateMsg(last);
      SaysNothing(msg);
      if msg.Len() == 0 {
        return None;
      }
      last := next;
      tx := Some(msg);
    }

    method Forget(addrs: seq<Addr>)
      modifies this`remoteLiveConns
      ensures remoteLiveConns == old(remoteLiveConns) - Elements(addrs)
    {
      for i := 0 to |addrs|
        invariant remoteLiveConns == old(remoteLiveConns) - Elements(addrs[..i])
      {
        remoteLiveConns := remoteLiveConns - {addrs[i]};
        assert addrs[..i + 1] == addrs[..i] + [addrs[i]];
      }
      assert addrs[..|addrs|] == addrs;
    }

    method Learn(addrs: seq<Addr>, flags: seq<Flags>)
      modifies this`remoteLiveConns
      ensures remoteLiveConns == Heard(old(remoteLiveConns), addrs, flags)
    {
      for i := 0 to |addrs|
        invariant remoteLiveConns == Heard(old(remoteLiveConns), addrs[..i], flags)
      {
        remoteLiveConns := remoteLiveConns[addrs[i] := if i < |flags| then Some(flags[i]) else None];
        assert addrs[..i + 1][..i] == addrs[..i];
      }
      assert addrs[..|addrs|] == addrs;
    }

    method UpdateRemoteLiveConns(rx: PexMsg)
      modifies this`remoteLiveConns
      ensures remoteLiveConns == ReceiveMsg(old(remoteLiveConns), rx)
    {
      Forget(rx.dropped);
      Forget(rx.dropped6);
      Learn(rx.added, rx.addedFlags);
      Learn(rx.added6, rx.added6Flags);
    }
  }

  lemma SaysNothing(m: PexMsg)
    requires WellFormed(m)
    ensures m.Len() == 0 <==> Says(m) == NOTHING
  {
    if m.added != [] {
      assert m.added[0] in Says(m).added;
    } else if m.added6 != [] {
      assert m.added6[0] in Says(m).added;
    } else if m.dropped != [] {
      assert m.dropped[0] in Says(m).dropped;
    } else if m.dropped6 != [] {
      assert m.dropped6[0] in Says(m).dropped;
    }
  }

  lemma StoredPut(m: map<Addr, Option<Flags>>, z: map<Addr, Flags>, a: Addr, f: Flags)
    ensures (m + Stored(z))[a := Some(f)] == m + Stored(z[a := f])
  {
  }

  lemma FrontAndLast<T>(s: seq<T>, n: nat)
    requires n < |s|
    ensures s[..n + 1] == s[..n] + [s[n]] && s[n] in s
  {
  }

  lemma {:induction false} HeardIsZip(m: map<Addr, Option<Flags>>, addrs: seq<Addr>, flags: seq<Flags>, n: nat)
    requires n <= |addrs| <= |flags| && NoDup(addrs)
    ensures Heard(m, addrs[..n], flags) == m + Stored(Zip(addrs[..n], flags[..n]))
    decreases n
  {
    hide Zip, Stored;
    if n == 0 {
      StoredEmpty(m);
    } else {
      var k := n - 1;
      HeardIsZip(m, addrs, flags, k);
      FrontAndLast(addrs, k);
      FrontAndLast(flags, k);
      assert addrs[..n][..k] == addrs[..k];
      ZipSnoc(addrs[..k], flags[..k], addrs[k], flags[k]);
      StoredPut(m, Zip(addrs[..k], flags[..k]), addrs[k], flags[k]);
    }
  }

  lemma StoredEmpty(m: map<Addr, Option<Flags>>)
    ensures m + Stored(Zip([], [])) == m
  {
  }

  lemma StoredTake(m: map<Addr, Flags>, gone: set<Addr>)
    ensures Stored(m) - gone == Stored(m - gone)
  {
  }

  lemma StoredJoin(a: map<Addr, Flags>, b: map<Addr, Flags>)
    ensures Stored(a) + Stored(b) == Stored(a + b)
  {
  }

  /** The receiver's loops do to its records what the message says. */
  lemma ReceivesWhatIsSaid(m: map<Addr, Flags>, rx: PexMsg)
    requires WellFormed(rx)
    ensures ReceiveMsg(Stored(m), rx) == Stored(Receive(m, Says(rx)))
  {
    hide Zip, Heard, Stored;
    var kept := m - Elements(rx.dropped) - Elements(rx.dropped6);
    StoredTake(m, Elements(rx.dropped));
    StoredTake(m - Elements(rx.dropped), Elements(rx.dropped6));
    assert rx.added[..|rx.added|] == rx.added && rx.added6[..|rx.added6|] == rx.added6;
    assert rx.addedFlags[..|rx.added|] == rx.addedFlags && rx.added6Flags[..|rx.added6|] == rx.added6Flags;
    var z, z6 := Zip(rx.added, rx.addedFlags), Zip(rx.added6, rx.added6Flags);
    HeardIsZip(Stored(kept), rx.added, rx.addedFlags, |rx.added|);
    StoredJoin(kept, z);
    HeardIsZip(Stored(kept + z), rx.added6, rx.added6Flags, |rx.added6|);
    StoredJoin(kept + z, z6);
    assert m - (Elements(rx.dropped) + Elements(rx.dropped6)) == kept;
    assert (kept + z) + z6 == kept + (z + z6);
  }

  /** One connection's sender and its peer's receiver: an exchange is exactly one step of the session. */
  method Exchange(s: PexState, sender: PexConn, receiver: PexConn, ghost believed: map<Addr, Flags>)
    requires s.Valid() && sender != receiver && sender.last <= |s.feed| && receiver.remoteLiveConns == Stored(believed)
    modifies sender`last, receiver`remoteLiveConns
    ensures var t := Send(Session(s.feed, old(sender.last), believed));
            sender.last == t.cursor && receiver.remoteLiveConns == Stored(t.believed)
  {
    hide PexState.Valid, Says, WellFormed, Stored, Genmsg, ReceiveMsg;
    var tx := sender.NextMsg(s);
    if tx.Some? {
      ReceivesWhatIsSaid(believed, tx.value);
      receiver.UpdateRemoteLiveConns(tx.value);
    }
  }

  // ---------- the hold buffer ----------

  /** A feed whose events alternate, with pending drops of distinct connected addresses. */
  ghost predicate Publishes(p: Publisher, connected: set<Addr>) {
    && Alternates({}, p.feed)
    && (forall i :: 0 <= i < |p.hold| ==> p.hold[i].Dropped?)
    && Alternates(Live({}, p.feed), p.hold)
    && connected == Live({}, p.feed + p.hold)
  }

  /** Whether an address still waits to be reported as dropped. */
  ghost predicate OnHold(p: Publisher, a: Addr) {
    exists i :: 0 <= i < |p.hold| && p.hold[i].addr == a
  }

  /** Drops alone take their addresses away. */
  lemma {:induction false} HeldAreLive(live: set<Addr>, hold: seq<Event>, a: Addr)
    requires Alternates(live, hold) && forall i :: 0 <= i < |hold| ==> hold[i].Dropped?
    ensures Live(live, hold) <= live
    ensures a in live && a !in Live(live, hold) <==> exists i :: 0 <= i < |hold| && hold[i].addr == a
  {
    if hold != [] {
      var n := |hold| - 1;
      HeldAreLive(live, hold[..n], a);
      if exists i :: 0 <= i < n && hold[..n][i].addr == a {
        var i :| 0 <= i < n && hold[..n][i].addr == a;
        assert hold[i].addr == a;
      }
      if exists i :: 0 <= i < |hold| && hold[i].addr == a {
        var i :| 0 <= i < |hold| && hold[i].addr == a;
        assert i == n || hold[..n][i].addr == a;
        if i == n {
          HeldAreLive(live, hold[..n], hold[n].addr);
        }
      }
    }
  }

  lemma AlternatesSnoc(es: seq<Event>, e: Event)
    ensures Alternates({}, es + [e]) <==> Alternates({}, es) && News(Live({}, es), e)
    ensures Live({}, es + [e]) == After(Live({}, es), e)
  {
    assert (es + [e])[..|es|] == es;
  }

  /**
    An extended handshake keeps the feed alternating exactly when its address is not connected already and not on
    hold, or the hold is released first.
  */
  lemma AddKeepsAlternation(p: Publisher, connected: set<Addr>, a: Addr, f: Flags)
    requires Publishes(p, connected)
    ensures Alternates({}, AddConn(p, a, f).feed) <==> a !in connected && (p.alive + 1 >= TARGET_ADDED || !OnHold(p, a))
    ensures Alternates({}, AddConn(p, a, f).feed) ==> Publishes(AddConn(p, a, f), connected + {a})
  {
    var p1 := AddConn(p, a, f);
    Split({}, p.feed, p.hold);
    HeldAreLive(Live({}, p.feed), p.hold, a);
    if p.alive + 1 >= TARGET_ADDED {
      AlternatesSnoc(p.feed + p.hold, Added(a, f));
      assert p1.feed + p1.hold == p1.feed;
    } else {
      AlternatesSnoc(p.feed, Added(a, f));
      if Alternates({}, p1.feed) {
        HoldStill(p.feed, p.hold, a, f);
      }
    }
  }

  /** Drops still held are news after an unrelated connection as before. */
  lemma {:induction false} HoldAfter(live: set<Addr>, hold: seq<Event>, a: Addr)
    requires Alternates(live, hold) && a !in live && forall i :: 0 <= i < |hold| ==> hold[i].Dropped? && hold[i].addr != a
    ensures Alternates(live + {a}, hold) && Live(live + {a}, hold) == Live(live, hold) + {a}
  {
    if hold != [] {
      HoldAfter(live, hold[..|hold| - 1], a);
    }
  }

  lemma HoldStill(feed: seq<Event>, hold: seq<Event>, a: Addr, f: Flags)
    requires Alternates({}, feed) && Alternates(Live({}, feed), hold) && a !in Live({}, feed)
    requires forall i :: 0 <= i < |hold| ==> hold[i].Dropped?
    ensures Alternates(Live({}, feed + [Added(a, f)]), hold)
    ensures Live({}, feed + [Added(a, f)] + hold) == Live({}, feed + hold) + {a}
  {
    var live := Live({}, feed);
    AlternatesSnoc(feed, Added(a, f));
    HeldAreLive(live, hold, a);
    HoldAfter(live, hold, a);
    Split({}, feed + [Added(a, f)], hold);
    Split({}, feed, hold);
  }

  /** A disconnection always does. */
  lemma DropKeepsAlternation(p: Publisher, connected: set<Addr>, a: Addr)
    requires Publishes(p, connected) && a in connected
    ensures Publishes(DropConn(p, a), connected - {a})
  {
    Split({}, p.feed, p.hold);
    HeldAreLive(Live({}, p.feed), p.hold, a);
    if p.alive - 1 < TARGET_ADDED && |p.hold| < MAX_HOLD {
      var hold := p.hold + [Dropped(a)];
      assert hold[..|p.hold|] == p.hold;
      Split({}, p.feed, hold);
    } else {
      AlternatesSnoc(p.feed, Dropped(a));
      HoldWithout(Live({}, p.feed), p.hold, a);
      Split({}, p.feed + [Dropped(a)], p.hold);
    }
  }

  lemma {:induction false} HoldWithout(live: set<Addr>, hold: seq<Event>, a: Addr)
    requires Alternates(live, hold) && (forall i :: 0 <= i < |hold| ==> hold[i].Dropped?) && a in Live(live, hold)
    ensures Alternates(live - {a}, hold) && Live(live - {a}, hold) == Live(live, hold) - {a}
  {
    if hold != [] {
      HoldWithout(live, hold[..|hold| - 1], a);
    }
  }
}

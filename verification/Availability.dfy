/**
  How many peers hold each piece. A piece's availability is the number of connections known to
  have everything plus a per-piece correction that the message handlers adjust by one at a time.
*/
module Availability {
  import opened Collections
  import opened Outcomes

  type PeerId = nat

  datatype Remote = Remote(pieces: set<nat>, sentAll: bool, closed: bool)

  /** `rel` has one entry per piece once the info is known; `peers` are the torrent's connections. */
  datatype State = State(haveInfo: bool, rel: seq<int>, peers: map<PeerId, Remote>, withAll: set<PeerId>)

  /** `peerHasPiece`: having as many pieces as there are counts as having all of them. */
  predicate PeerHas(s: State, c: Remote, i: nat) {
    c.sentAll || (s.haveInfo && |c.pieces| == |s.rel|) || i in c.pieces
  }

  function Bump(rel: seq<int>, up: set<nat>, down: set<nat>): (r: seq<int>)
    ensures |r| == |rel|
  {
    seq(|rel|, i requires 0 <= i < |rel| => rel[i] + (if i in up then 1 else 0) - (if i in down then 1 else 0))
  }

  /** `incPieceAvailability` of some pieces and `decPieceAvailability` of others. */
  function Adjust(s: State, up: set<nat>, down: set<nat>): (o: Outcome<State>)
    ensures o.Done? ==> o.value == s.(rel := o.value.rel) && |o.value.rel| == |s.rel|
  {
    if !s.haveInfo then Done(s)
    else if (exists i :: i in up && i >= |s.rel|) || (exists i :: i in down && (i >= |s.rel| || s.rel[i] <= 0)) then Panic
    else Done(s.(rel := Bump(s.rel, up, down)))
  }

  function SetPeer(s: State, p: PeerId, c: Remote): State {
    s.(peers := s.peers[p := c])
  }

  /** `decPeerPieceAvailability`. */
  function Withdraw(s: State, p: PeerId): (o: Outcome<State>)
    requires p in s.peers
    ensures o.Done? ==> o.value.peers == s.peers
  {
    if p in s.withAll then Done(s.(withAll := s.withAll - {p})) else Adjust(s, {}, s.peers[p].pieces)
  }

  function Have(s: State, p: PeerId, i: nat): Outcome<State>
    requires p in s.peers
  {
    if (s.haveInfo && i >= |s.rel|) || PeerHas(s, s.peers[p], i) then Done(s)
    else
      var s1 :- Adjust(s, {i}, {});
      Done(SetPeer(s1, p, s.peers[p].(pieces := s.peers[p].pieces + {i})))
  }

  function HaveAll(s: State, p: PeerId): Outcome<State>
    requires p in s.peers
  {
    var s1 :- Adjust(s, {}, s.peers[p].pieces);
    Done(SetPeer(s1.(withAll := s1.withAll + {p}), p, s.peers[p].(pieces := {}, sentAll := true)))
  }

  function HaveNone(s: State, p: PeerId): Outcome<State>
    requires p in s.peers
  {
    var s1 :- if s.peers[p].sentAll then Done(s) else Withdraw(s, p);
    Done(SetPeer(s1, p, s.peers[p].(pieces := {}, sentAll := false)))
  }

  function BitsOf(bf: seq<bool>): set<nat> {
    set i | 0 <= i < |bf| && bf[i]
  }

  /** The bits a bitfield message sets, with known excess ignored. */
  function FieldBits(s: State, bf: seq<bool>): (bm: set<nat>)
    ensures s.haveInfo ==> forall i :: i in bm ==> i < |s.rel|
  {
    BitsOf(if s.haveInfo && |bf| > |s.rel| then bf[..|s.rel|] else bf)
  }

  function Bitfield(s: State, p: PeerId, bf: seq<bool>): Outcome<State>
    requires p in s.peers
  {
    var c, bm := s.peers[p], FieldBits(s, bf);
    if |bf| % 8 != 0 then Panic
    else if s.haveInfo && |bm| == |s.rel| then HaveAll(s, p)
    else if c.sentAll && (p !in s.withAll || c.pieces != {}) then Panic
    else
      var s1 :- Adjust(s, bm - c.pieces, c.pieces - bm);
      Done(SetPeer(s1.(withAll := if c.sentAll then s1.withAll - {p} else s1.withAll), p,
                   c.(pieces := bm, sentAll := false)))
  }

  function Close(s: State, p: PeerId): Outcome<State>
    requires p in s.peers
  {
    if s.peers[p].closed then Done(s)
    else
      var s1 :- Withdraw(s, p);
      Done(SetPeer(s1, p, s.peers[p].(closed := true)))
  }

  function Delete(s: State, p: PeerId): Outcome<State>
    requires p in s.peers
  {
    var peers := s.peers - {p};
    if !s.peers[p].closed || (peers == map[] && s.withAll != {}) then Panic
    else Done(s.(peers := peers))
  }

  /** Connections counted for piece `i` when the info arrives: closed ones too, and by number of pieces. */
  function Counted(s: State, n: nat, i: nat): set<PeerId> {
    set p | p in s.peers && p !in s.withAll
            && (s.peers[p].sentAll || |s.peers[p].pieces| == n || i in s.peers[p].pieces)
  }

  function Trimmed(c: Remote, n: nat): Remote {
    c.(pieces := set i | i in c.pieces && i < n)
  }

  function SetInfo(s: State, n: nat): State {
    State(true, seq(n, i requires 0 <= i < n => |Counted(s, n, i)|),
          map p | p in s.peers :: Trimmed(s.peers[p], n), s.withAll)
  }

  function CloseEach(s: State, order: seq<PeerId>): Outcome<State>
    requires forall p :: p in order ==> p in s.peers
    decreases |order|
  {
    if order == [] then Done(s)
    else
      var s1 :- Close(s, order[0]);
      assert s1.peers.Keys == s.peers.Keys;
      CloseEach(s1, order[1..])
  }

  /** Closing the torrent closes every connection and then demands that every correction be zero. */
  function CloseTorrent(s: State, order: seq<PeerId>): Outcome<State>
    requires forall p :: p in order ==> p in s.peers
  {
    var s1 :- CloseEach(s, order);
    if exists i :: 0 <= i < |s1.rel| && s1.rel[i] != 0 then Panic else Done(s1)
  }

  // ---------- what the numbers mean ----------

  ghost predicate Holds(c: Remote, i: nat) {
    !c.closed && !c.sentAll && i in c.pieces
  }

  ghost function Holders(peers: map<PeerId, Remote>, i: nat): set<PeerId> {
    set p | p in peers && Holds(peers[p], i)
  }

  ghost function OpenWithAll(peers: map<PeerId, Remote>): set<PeerId> {
    set p | p in peers && peers[p].sentAll && !peers[p].closed
  }

  ghost predicate Inv(s: State) {
    && s.withAll == OpenWithAll(s.peers)
    && (forall p :: p in s.peers && s.peers[p].sentAll ==> s.peers[p].pieces == {})
    && (s.haveInfo ==> forall p :: p in s.peers && !s.peers[p].closed ==> forall i :: i in s.peers[p].pieces ==> i < |s.rel|)
    && (s.haveInfo ==> forall i :: 0 <= i < |s.rel| ==> s.rel[i] == |Holders(s.peers, i)|)
    && (!s.haveInfo ==> s.rel == [])
  }

  /** Replacing one peer's record changes the number of holders by what that peer gained or lost. */
  lemma HoldersUpdate(peers: map<PeerId, Remote>, p: PeerId, c: Remote, i: nat)
    requires p in peers
    ensures |Holders(peers[p := c], i)| == |Holders(peers, i)| + (if Holds(c, i) then 1 else 0)
                                           - (if Holds(peers[p], i) then 1 else 0)
  {
    var was, now := Holders(peers, i), Holders(peers[p := c], i);
    var rest := was - {p};
    assert was == if Holds(peers[p], i) then rest + {p} else rest;
    assert now == if Holds(c, i) then rest + {p} else rest;
  }

  /** A change of one peer's record, with the corrections adjusted to match, keeps the numbers right. */
  lemma PeerChanges(s: State, s1: State, p: PeerId, c: Remote)
    requires Inv(s) && p in s.peers && s1 == State(s.haveInfo, s1.rel, s.peers[p := c], s1.withAll) && |s1.rel| == |s.rel|
    requires s1.withAll == if c.sentAll && !c.closed then s.withAll + {p} else s.withAll - {p}
    requires c.sentAll ==> c.pieces == {}
    requires s.haveInfo && !c.closed ==> forall i :: i in c.pieces ==> i < |s.rel|
    requires s.haveInfo ==> forall i :: 0 <= i < |s.rel| ==>
               s1.rel[i] == s.rel[i] + (if Holds(c, i) then 1 else 0) - (if Holds(s.peers[p], i) then 1 else 0)
    ensures Inv(s1)
  {
    assert s1.withAll == OpenWithAll(s1.peers);
    forall i | s.haveInfo && 0 <= i < |s.rel| ensures s1.rel[i] == |Holders(s1.peers, i)| {
      HoldersUpdate(s.peers, p, c, i);
    }
  }

  /** What an open peer is counted for can be taken back: the correction there is positive. */
  lemma CountedOnce(s: State, p: PeerId, i: nat)
    requires Inv(s) && s.haveInfo && p in s.peers && Holds(s.peers[p], i)
    ensures i < |s.rel| && s.rel[i] > 0
  {
    assert p in Holders(s.peers, i);
  }

  lemma AdjustWorks(s: State, p: PeerId, up: set<nat>, down: set<nat>)
    requires Inv(s) && p in s.peers && !s.peers[p].closed && !s.peers[p].sentAll && down <= s.peers[p].pieces
    requires s.haveInfo ==> forall i :: i in up ==> i < |s.rel|
    ensures Adjust(s, up, down) == Done(s.(rel := if s.haveInfo then Bump(s.rel, up, down) else s.rel))
  {
    forall i | i in down && s.haveInfo ensures i < |s.rel| && s.rel[i] > 0 {
      CountedOnce(s, p, i);
    }
  }

  lemma AdjustNothing(s: State)
    ensures Adjust(s, {}, {}) == Done(s)
  {
    assert Bump(s.rel, {}, {}) == s.rel;
  }

  ghost predicate Open(s: State, p: PeerId) {
    p in s.peers && !s.peers[p].closed
  }

  lemma {:induction false} Below(b: set<nat>, n: nat)
    requires forall i :: i in b ==> i < n
    ensures |b| <= n && (|b| == n ==> forall i: nat :: i < n ==> i in b)
  {
    if n > 0 {
      Below(b - {n - 1}, n - 1);
    } else {
      assert b == {};
    }
  }

  /** Counting pieces decides "has all" once the pieces are known to exist. */
  lemma PeerHasMeans(s: State, p: PeerId, i: nat)
    requires Inv(s) && Open(s, p) && (s.haveInfo ==> i < |s.rel|)
    ensures PeerHas(s, s.peers[p], i) <==> s.peers[p].sentAll || i in s.peers[p].pieces
  {
    if s.haveInfo {
      Below(s.peers[p].pieces, |s.rel|);
    }
  }

  lemma HaveKeeps(s: State, p: PeerId, i: nat)
    requires Inv(s) && Open(s, p)
    ensures Have(s, p, i).Done? && Inv(Have(s, p, i).value)
  {
    var c := s.peers[p];
    if !((s.haveInfo && i >= |s.rel|) || PeerHas(s, c, i)) {
      AdjustWorks(s, p, {i}, {});
      PeerChanges(s, Have(s, p, i).value, p, c.(pieces := c.pieces + {i}));
    }
  }

  lemma HaveAllKeeps(s: State, p: PeerId)
    requires Inv(s) && Open(s, p)
    ensures HaveAll(s, p).Done? && Inv(HaveAll(s, p).value)
  {
    var c := s.peers[p];
    if c.sentAll {
      AdjustNothing(s);
    } else {
      AdjustWorks(s, p, {}, c.pieces);
    }
    PeerChanges(s, HaveAll(s, p).value, p, c.(pieces := {}, sentAll := true));
  }

  lemma BitfieldKeeps(s: State, p: PeerId, bf: seq<bool>)
    requires Inv(s) && Open(s, p)
    ensures Bitfield(s, p, bf).Done? <==> |bf| % 8 == 0
    ensures |bf| % 8 == 0 ==> Inv(Bitfield(s, p, bf).value)
  {
    var c, bm := s.peers[p], FieldBits(s, bf);
    if |bf| % 8 != 0 {
    } else if s.haveInfo && |bm| == |s.rel| {
      HaveAllKeeps(s, p);
    } else {
      if !c.sentAll {
        AdjustWorks(s, p, bm - c.pieces, c.pieces - bm);
      }
      PeerChanges(s, Bitfield(s, p, bf).value, p, c.(pieces := bm, sentAll := false));
    }
  }

  lemma WithdrawWorks(s: State, p: PeerId)
    requires Inv(s) && Open(s, p)
    ensures Withdraw(s, p) == Done(
              if s.peers[p].sentAll then s.(withAll := s.withAll - {p})
              else s.(rel := if s.haveInfo then Bump(s.rel, {}, s.peers[p].pieces) else s.rel))
  {
    if !s.peers[p].sentAll {
      AdjustWorks(s, p, {}, s.peers[p].pieces);
    }
  }

  /** Have None keeps the numbers right exactly when the peer had not sent Have All before. */
  lemma HaveNoneExact(s: State, p: PeerId)
    requires Inv(s) && Open(s, p)
    ensures HaveNone(s, p).Done?
    ensures Inv(HaveNone(s, p).value) <==> !s.peers[p].sentAll
  {
    var c := s.peers[p].(pieces := {}, sentAll := false);
    var s1 := SetPeer(s, p, c);
    if s.peers[p].sentAll {
      assert p in s1.withAll && p !in OpenWithAll(s1.peers);
    } else {
      WithdrawWorks(s, p);
      PeerChanges(s, HaveNone(s, p).value, p, c);
    }
  }

  lemma CloseKeeps(s: State, p: PeerId)
    requires Inv(s) && p in s.peers
    ensures Close(s, p).Done? && Inv(Close(s, p).value)
    ensures Close(s, p).value.peers == s.peers[p := s.peers[p].(closed := true)]
    ensures |Close(s, p).value.rel| == |s.rel|
  {
    var c := s.peers[p].(closed := true);
    if s.peers[p].closed {
      assert s.peers[p := c] == s.peers;
    } else {
      WithdrawWorks(s, p);
      PeerChanges(s, Close(s, p).value, p, c);
    }
  }

  lemma DeleteKeeps(s: State, p: PeerId)
    requires Inv(s) && p in s.peers && s.peers[p].closed
    ensures Delete(s, p).Done? && Inv(Delete(s, p).value)
  {
    var peers := s.peers - {p};
    assert s.withAll == OpenWithAll(peers);
    forall i ensures Holders(peers, i) == Holders(s.peers, i) {
    }
    if peers == map[] {
      assert forall q :: q in s.withAll ==> q in peers;
    }
  }

  lemma JoinKeeps(s: State, p: PeerId)
    requires Inv(s) && p !in s.peers
    ensures Inv(SetPeer(s, p, Remote({}, false, false)))
  {
    var s1 := SetPeer(s, p, Remote({}, false, false));
    assert s1.withAll == OpenWithAll(s1.peers);
    forall i ensures Holders(s1.peers, i) == Holders(s.peers, i) {
    }
  }

  /** What must be true of connection `c` for the first count to take it as it is. */
  predicate CountsRight(c: Remote, n: nat) {
    if c.closed then n == 0 || (!c.sentAll && |c.pieces| != n && forall i :: i in c.pieces ==> i >= n)
    else c.sentAll || n == 0 || (|c.pieces| == n ==> forall i :: i in c.pieces ==> i < n)
  }

  /** The first count is right exactly when it is right about each connection. */
  lemma SetInfoExact(s: State, n: nat)
    requires Inv(s) && !s.haveInfo
    ensures Inv(SetInfo(s, n)) <==> forall p :: p in s.peers ==> CountsRight(s.peers[p], n)
  {
    var s1 := SetInfo(s, n);
    assert OpenWithAll(s1.peers) == OpenWithAll(s.peers);
    forall p, i: nat | p in s.peers && i < n ensures p in Holders(s1.peers, i) ==> p in Counted(s, n, i) {
    }
    if forall p :: p in s.peers ==> CountsRight(s.peers[p], n) {
      forall i: nat | i < n ensures s1.rel[i] == |Holders(s1.peers, i)| {
        forall p | p in s.peers ensures p in Counted(s, n, i) <==> p in Holders(s1.peers, i) {
          CountedMeans(s, n, p, i);
        }
        assert Counted(s, n, i) == Holders(s1.peers, i);
      }
    } else {
      var p :| p in s.peers && !CountsRight(s.peers[p], n);
      var i := Miscounted(s, n, p);
      CountedTooOften(s, n, p, i);
    }
  }

  lemma CountedMeans(s: State, n: nat, p: PeerId, i: nat)
    requires Inv(s) && p in s.peers && i < n && CountsRight(s.peers[p], n)
    ensures p in Counted(s, n, i) <==> p in Holders(SetInfo(s, n).peers, i)
  {
    var c := s.peers[p];
    if !c.closed && !c.sentAll && |c.pieces| == n {
      Below(c.pieces, n);
    }
  }

  /** A piece a wrongly counted connection is counted for without holding it. */
  lemma Miscounted(s: State, n: nat, p: PeerId) returns (i: nat)
    requires Inv(s) && p in s.peers && !CountsRight(s.peers[p], n)
    ensures i < n && p in Counted(s, n, i) && p !in Holders(SetInfo(s, n).peers, i)
  {
    var c := s.peers[p];
    if c.closed {
      if c.sentAll || |c.pieces| == n {
        i := 0;
      } else {
        i :| i in c.pieces && i < n;
      }
    } else {
      var far :| far in c.pieces && far >= n;
      i := MissingBelow(c.pieces, n, far);
    }
  }

  lemma MissingBelow(b: set<nat>, n: nat, far: nat) returns (i: nat)
    requires n > 0 && |b| == n && far in b && far >= n
    ensures i < n && i !in b
  {
    if forall i: nat :: i < n ==> i in b {
      var low := set i | i in b && i < n;
      Below(low, n);
      LowSize(low, n);
      assert low <= b - {far};
      SubsetSize(low, b - {far});
      assert false;
    }
    i :| i < n && i !in b;
  }

  lemma {:induction false} LowSize(low: set<nat>, n: nat)
    requires forall i: nat :: i in low <==> i < n
    ensures |low| == n
  {
    if n > 0 {
      LowSize(low - {n - 1}, n - 1);
    } else {
      assert low == {};
    }
  }

  lemma CountedTooOften(s: State, n: nat, p: PeerId, i: nat)
    requires Inv(s) && i < n && p in Counted(s, n, i) && p !in Holders(SetInfo(s, n).peers, i)
    ensures !Inv(SetInfo(s, n))
  {
    var s1 := SetInfo(s, n);
    var a, b := Holders(s1.peers, i), Counted(s, n, i);
    assert a <= b - {p};
    SubsetSize(a, b - {p});
  }

  // ---------- what a peer has after it told us ----------

  /** Only the entry of `p`, the numbers and the set of those with everything differ. */
  ghost predicate OnlyRemote(s: State, s1: State, p: PeerId) {
    && s1.haveInfo == s.haveInfo && |s1.rel| == |s.rel| && s1.peers.Keys == s.peers.Keys && p in s1.peers
    && (forall q :: q in s.peers && q != p ==> s1.peers[q] == s.peers[q])
    && s1.withAll - {p} == s.withAll - {p}
  }

  /** The numbers a piece may have: any before the info is known. */
  predicate IsPiece(s: State, i: nat) {
    s.haveInfo ==> i < |s.rel|
  }

  /** A bitfield replaces what the peer was taken to have: it has exactly the pieces whose bit is set. */
  lemma BitfieldEffect(s: State, p: PeerId, bf: seq<bool>, i: nat)
    requires Inv(s) && Open(s, p) && |bf| % 8 == 0 && IsPiece(s, i)
    ensures Bitfield(s, p, bf).Done?
    ensures var s1 := Bitfield(s, p, bf).value;
            && OnlyRemote(s, s1, p) && !s1.peers[p].closed
            && (PeerHas(s1, s1.peers[p], i) <==> i < |bf| && bf[i])
  {
    BitfieldKeeps(s, p, bf);
    var bm, s1 := FieldBits(s, bf), Bitfield(s, p, bf).value;
    assert i in bm <==> i < |bf| && bf[i];
    if s.haveInfo && |bm| == |s.rel| {
      FullBits(bm, |s.rel|);
    } else {
      PeerHasMeans(s1, p, i);
    }
    hide Inv, Adjust, FieldBits;
  }

  lemma FullBits(bm: set<nat>, n: nat)
    requires |bm| == n && forall i :: i in bm ==> i < n
    ensures forall i: nat :: i < n ==> i in bm
  {
    Below(bm, n);
  }

  /** A Have adds the one piece, if there is such a piece. */
  lemma HaveEffect(s: State, p: PeerId, j: nat, i: nat)
    requires Inv(s) && Open(s, p) && IsPiece(s, i)
    ensures Have(s, p, j).Done?
    ensures var s1 := Have(s, p, j).value;
            && OnlyRemote(s, s1, p) && s1.withAll == s.withAll && !s1.peers[p].closed
            && (PeerHas(s1, s1.peers[p], i) <==> PeerHas(s, s.peers[p], i) || i == j)
  {
    HaveKeeps(s, p, j);
    PeerHasMeans(s, p, i);
    PeerHasMeans(Have(s, p, j).value, p, i);
    hide Inv, Adjust;
  }

  /** After Have All the peer has everything; after Have None, nothing. */
  lemma AllOrNoneEffect(s: State, p: PeerId, i: nat)
    requires Inv(s) && Open(s, p) && IsPiece(s, i)
    ensures HaveAll(s, p).Done? && HaveNone(s, p).Done?
    ensures var s1 := HaveAll(s, p).value; OnlyRemote(s, s1, p) && PeerHas(s1, s1.peers[p], i) && !s1.peers[p].closed && p in s1.withAll
    ensures var s1 := HaveNone(s, p).value; OnlyRemote(s, s1, p) && !PeerHas(s1, s1.peers[p], i) && !s1.peers[p].closed
  {
    HaveAllKeeps(s, p);
    HaveNoneExact(s, p);
    WithdrawWorks(s, p);
    hide Inv, Adjust;
  }

  /** Closing and deleting leave the other connections alone; the numbers then no longer count this one. */
  lemma LeaveEffect(s: State, p: PeerId)
    requires Inv(s) && Open(s, p)
    ensures Close(s, p).Done?
    ensures var s1 := Close(s, p).value;
            && OnlyRemote(s, s1, p) && s1.peers[p] == s.peers[p].(closed := true) && p !in s1.withAll
            && Delete(s1, p).Done? && Delete(s1, p).value == s1.(peers := s1.peers - {p})
  {
    CloseKeeps(s, p);
    WithdrawWorks(s, p);
    DeleteKeeps(Close(s, p).value, p);
    hide Adjust;
  }

  /** When the info arrives, each connection keeps exactly the pieces that exist. */
  lemma InfoEffect(s: State, n: nat, p: PeerId)
    requires p in s.peers
    ensures var s1 := SetInfo(s, n);
            && s1.haveInfo && |s1.rel| == n && s1.peers.Keys == s.peers.Keys && s1.withAll == s.withAll
            && s1.peers[p].sentAll == s.peers[p].sentAll && s1.peers[p].closed == s.peers[p].closed
            && forall i :: i in s1.peers[p].pieces <==> i in s.peers[p].pieces && i < n
  {
  }

  // ---------- runs ----------

  datatype Event =
    | Join(p: PeerId)
    | SentHave(p: PeerId, i: nat)
    | SentBitfield(p: PeerId, bf: seq<bool>)
    | SentHaveAll(p: PeerId)
    | SentHaveNone(p: PeerId)
    | Closed(p: PeerId)
    | Deleted(p: PeerId)
    | GotInfo(n: nat)
    | TorrentClosed(order: seq<PeerId>)

  ghost predicate Lists(order: seq<PeerId>, peers: map<PeerId, Remote>) {
    forall p :: p in order <==> p in peers
  }

  ghost predicate Enabled(s: State, e: Event) {
    match e
    case Join(p) => p !in s.peers
    case Closed(p) => p in s.peers
    case Deleted(p) => p in s.peers && s.peers[p].closed
    case GotInfo(n) => !s.haveInfo
    case TorrentClosed(order) => Lists(order, s.peers)
    case SentHave(p, i) => Open(s, p)
    case SentBitfield(p, bf) => Open(s, p) && |bf| % 8 == 0   // decoded from whole bytes
    case SentHaveAll(p) => Open(s, p)
    case SentHaveNone(p) => Open(s, p)
  }

  ghost function Step(s: State, e: Event): Outcome<State>
    requires Enabled(s, e)
  {
    match e
    case Join(p) => Done(SetPeer(s, p, Remote({}, false, false)))
    case SentHave(p, i) => Have(s, p, i)
    case SentBitfield(p, bf) => Bitfield(s, p, bf)
    case SentHaveAll(p) => HaveAll(s, p)
    case SentHaveNone(p) => HaveNone(s, p)
    case Closed(p) => Close(s, p)
    case Deleted(p) => Delete(s, p)
    case GotInfo(n) => Done(SetInfo(s, n))
    case TorrentClosed(order) => CloseTorrent(s, order)
  }

  /** Events that keep the numbers right: no Have None after Have All, and no odd connection when the info comes. */
  ghost predicate Fair(s: State, e: Event) {
    && Enabled(s, e)
    && (e.SentHaveNone? ==> !s.peers[e.p].sentAll)
    && (e.GotInfo? ==> forall p :: p in s.peers ==> CountsRight(s.peers[p], e.n))
  }

  lemma {:induction false} CloseEachKeeps(s: State, order: seq<PeerId>)
    requires Inv(s) && forall p :: p in order ==> p in s.peers
    ensures CloseEach(s, order).Done? && Inv(CloseEach(s, order).value)
    ensures var s1 := CloseEach(s, order).value;
            && s1.peers.Keys == s.peers.Keys
            && (forall p :: p in s.peers && s.peers[p].closed ==> s1.peers[p].closed)
            && (forall p :: p in order ==> s1.peers[p].closed)
    decreases |order|
  {
    if order != [] {
      CloseKeeps(s, order[0]);
      var s1 := Close(s, order[0]).value;
      assert order == [order[0]] + order[1..];
      CloseEachKeeps(s1, order[1..]);
    }
  }

  /** Closing every connection leaves every correction at zero, so closing the torrent never panics. */
  lemma ClosingLeavesNone(s: State, order: seq<PeerId>)
    requires Inv(s) && Lists(order, s.peers)
    ensures CloseTorrent(s, order).Done? && Inv(CloseTorrent(s, order).value)
    ensures var s1 := CloseTorrent(s, order).value;
            && s1.withAll == {} && (forall i :: 0 <= i < |s1.rel| ==> s1.rel[i] == 0)
            && s1.peers.Keys == s.peers.Keys && forall p :: p in s1.peers ==> s1.peers[p].closed
  {
    CloseEachKeeps(s, order);
    var s1 := CloseEach(s, order).value;
    assert OpenWithAll(s1.peers) == {};
    forall i | 0 <= i < |s1.rel| ensures s1.rel[i] == 0 {
      assert Holders(s1.peers, i) == {};
      assert !s1.haveInfo ==> s1.rel == [];
    }
  }

  /** No fair event panics, and the numbers stay right. */
  lemma StepKeeps(s: State, e: Event)
    requires Inv(s) && Fair(s, e)
    ensures Step(s, e).Done? && Inv(Step(s, e).value)
  {
    match e
    case Join(p) => JoinKeeps(s, p);
    case SentHave(p, i) => HaveKeeps(s, p, i);
    case SentBitfield(p, bf) => BitfieldKeeps(s, p, bf);
    case SentHaveAll(p) => HaveAllKeeps(s, p);
    case SentHaveNone(p) => HaveNoneExact(s, p);
    case Closed(p) => CloseKeeps(s, p);
    case Deleted(p) => DeleteKeeps(s, p);
    case GotInfo(n) => SetInfoExact(s, n);
    case TorrentClosed(order) => ClosingLeavesNone(s, order);
  }

  const START := State(false, [], map[], {})

  /** States reachable from an unknown torrent without connections. */
  ghost predicate FairRun(s: State, es: seq<Event>)
    decreases |es|
  {
    es == [] || (Fair(s, es[0]) && (Step(s, es[0]).Done? ==> FairRun(Step(s, es[0]).value, es[1..])))
  }

  ghost function Run(s: State, es: seq<Event>): Outcome<State>
    requires FairRun(s, es)
    decreases |es|
  {
    if es == [] then Done(s)
    else
      var s1 :- Step(s, es[0]);
      Run(s1, es[1..])
  }

  lemma {:induction false} RunKeeps(s: State, es: seq<Event>)
    requires Inv(s) && FairRun(s, es)
    ensures Run(s, es).Done? && Inv(Run(s, es).value)
    decreases |es|
  {
    if es != [] {
      StepKeeps(s, es[0]);
      RunKeeps(Step(s, es[0]).value, es[1..]);
    }
  }

  /**
    After every fair run, a known piece's availability is the number of open connections that
    have it, as the request strategy would ask each of them.
  */
  lemma AvailabilityIsExact(es: seq<Event>, i: nat)
    requires FairRun(START, es)
    ensures Run(START, es).Done?
    ensures var s := Run(START, es).value;
            s.haveInfo && i < |s.rel| ==>
              && s.rel[i] >= 0
              && |s.withAll| + s.rel[i] == |set p | p in s.peers && !s.peers[p].closed && PeerHas(s, s.peers[p], i)|
  {
    RunKeeps(START, es);
    var s := Run(START, es).value;
    if s.haveInfo && i < |s.rel| {
      var having := set p | p in s.peers && !s.peers[p].closed && PeerHas(s, s.peers[p], i);
      forall p | p in s.peers && !s.peers[p].closed
        ensures p in having <==> p in OpenWithAll(s.peers) || p in Holders(s.peers, i)
      {
        PeerHasMeans(s, p, i);
      }
      assert having == OpenWithAll(s.peers) + Holders(s.peers, i);
      assert OpenWithAll(s.peers) !! Holders(s.peers, i);
    }
  }

  // ---------- runs that are not fair ----------

  /** The events can happen one after another from `s`, and the last of them, or the first that panics, gives `o`. */
  ghost predicate Leads(s: State, es: seq<Event>, o: Outcome<State>)
    decreases |es|
  {
    if es == [] then o == Done(s)
    else Enabled(s, es[0]) && match Step(s, es[0]) case Panic => o == Panic case Done(s1) => Leads(s1, es[1..], o)
  }

  lemma OneBack(s: State, es: seq<Event>, k: nat, s1: State, o: Outcome<State>)
    requires k < |es| && Enabled(s, es[k]) && Step(s, es[k]) == Done(s1) && Leads(s1, es[k + 1..], o)
    ensures Leads(s, es[k..], o)
  {
    assert es[k..][1..] == es[k + 1..];
  }

  /** Closing a torrent whose only connection withdraws nothing panics as soon as a count is left over. */
  lemma LeftOver(s: State, c: Remote)
    requires s.haveInfo && s.rel == [1] && s.peers == map[7 := c] && (c.closed || 7 in s.withAll || c.pieces == {})
    ensures Leads(s, [TorrentClosed([7])], Panic)
  {
    AdjustNothing(s);
    var s1 := Close(s, 7).value;
    assert s1.rel[0] == 1;
    assert CloseEach(s1, []) == Done(s1);
    assert CloseEach(s, [7]) == CloseEach(s1, [7][1..]);
    assert Lists([7], s.peers);
  }

  lemma Sole(c: Remote, d: Remote)
    ensures map[7 := c][7 := d] == map[7 := d]
  {
  }

  lemma InfoFirst()
    ensures SetInfo(START, 1) == State(true, [0], map[], {})
  {
    assert Counted(START, 1, 0) == {};
    assert SetInfo(START, 1).rel == [0];
  }

  /** The states of a torrent of one piece while its only connection sends Have All, Have None and Have. */
  const JOINED := State(true, [0], map[7 := Remote({}, false, false)], {})
  const ALL := State(true, [0], map[7 := Remote({}, true, false)], {7})
  const NONE := State(true, [0], map[7 := Remote({}, false, false)], {7})
  const ONE := State(true, [1], map[7 := Remote({0}, false, false)], {7})

  lemma AllNoneOne()
    ensures HaveAll(JOINED, 7) == Done(ALL) && HaveNone(ALL, 7) == Done(NONE) && Have(NONE, 7, 0) == Done(ONE)
  {
    AdjustNothing(JOINED);
    Sole(JOINED.peers[7], ALL.peers[7]);
    Sole(ALL.peers[7], NONE.peers[7]);
    HaveFirst(NONE, NONE.peers[7]);
  }

  lemma MessagesStep()
    ensures Enabled(JOINED, SentHaveAll(7)) && Step(JOINED, SentHaveAll(7)) == Done(ALL)
    ensures Enabled(ALL, SentHaveNone(7)) && Step(ALL, SentHaveNone(7)) == Done(NONE)
    ensures Enabled(NONE, SentHave(7, 0)) && Step(NONE, SentHave(7, 0)) == Done(ONE)
  {
    AllNoneOne();
    hide HaveAll, HaveNone, Have;
  }

  lemma InfoSteps()
    ensures Enabled(START, GotInfo(1)) && Step(START, GotInfo(1)) == Done(SetInfo(START, 1))
    ensures Enabled(SetInfo(START, 1), Join(7)) && Step(SetInfo(START, 1), Join(7)) == Done(JOINED)
  {
    InfoFirst();
    hide SetInfo;
  }

  /** Have None after Have All, then Have: the torrent cannot be closed without a panic. */
  lemma HaveNoneAfterHaveAll()
    ensures Leads(START, [GotInfo(1), Join(7), SentHaveAll(7), SentHaveNone(7), SentHave(7, 0), TorrentClosed([7])], Panic)
  {
    var es := [GotInfo(1), Join(7), SentHaveAll(7), SentHaveNone(7), SentHave(7, 0), TorrentClosed([7])];
    assert es[5..] == [TorrentClosed([7])] && es[0..] == es;
    LeftOver(ONE, ONE.peers[7]);
    MessagesStep();
    InfoSteps();
    hide Leads, Step, Enabled;
    OneBack(NONE, es, 4, ONE, Panic);
    OneBack(ALL, es, 3, NONE, Panic);
    OneBack(JOINED, es, 2, ALL, Panic);
    OneBack(SetInfo(START, 1), es, 1, JOINED, Panic);
    OneBack(START, es, 0, SetInfo(START, 1), Panic);
  }

  lemma HaveFirst(s: State, c: Remote)
    requires s.haveInfo && s.rel == [0] && s.peers == map[7 := c] && c.pieces == {} && !c.sentAll
    ensures Have(s, 7, 0) == Done(s.(rel := [1], peers := map[7 := c.(pieces := {0})]))
  {
    assert Bump([0], {0}, {}) == [1] && {} + {0} == {0};
    Sole(c, c.(pieces := {0}));
  }

  /** A connection joins and names a piece before the info is known. */
  lemma HeardBefore(i: nat, es: seq<Event>, o: Outcome<State>)
    requires |es| > 2 && es[0] == Join(7) && es[1] == SentHave(7, i)
    requires Leads(State(false, [], map[7 := Remote({i}, false, false)], {}), es[2..], o)
    ensures Leads(START, es, o)
  {
    var s := State(false, [], map[7 := Remote({}, false, false)], {});
    assert {} + {i} == {i} && es[0..] == es;
    Sole(s.peers[7], Remote({i}, false, false));
    OneBack(s, es, 1, State(false, [], map[7 := Remote({i}, false, false)], {}), o);
    OneBack(START, es, 0, s, o);
  }

  lemma OneCounted(s: State)
    requires s.peers.Keys == {7} && s.withAll == {} && |s.peers[7].pieces| == 1
    ensures SetInfo(s, 1) == State(true, [1], map[7 := Trimmed(s.peers[7], 1)], {})
  {
    assert Counted(s, 1, 0) == {7};
    assert SetInfo(s, 1).rel == [1];
  }

  /** A Have for a piece that does not exist, heard before the info: the same panic. */
  lemma StrayHaveBeforeInfo()
    ensures Leads(START, [Join(7), SentHave(7, 5), GotInfo(1), TorrentClosed([7])], Panic)
  {
    var es := [Join(7), SentHave(7, 5), GotInfo(1), TorrentClosed([7])];
    var s := State(false, [], map[7 := Remote({5}, false, false)], {});
    OneCounted(s);
    var s1 := SetInfo(s, 1);
    assert s1.peers[7].pieces == {};
    LeftOver(s1, s1.peers[7]);
    assert es[3..] == [TorrentClosed([7])];
    OneBack(s, es, 2, s1, Panic);
    HeardBefore(5, es, Panic);
  }

  /** A connection closed but not yet removed when the info arrives is counted: the same panic. */
  lemma ClosedBeforeInfo()
    ensures Leads(START, [Join(7), SentHave(7, 0), Closed(7), GotInfo(1), TorrentClosed([7])], Panic)
  {
    var es := [Join(7), SentHave(7, 0), Closed(7), GotInfo(1), TorrentClosed([7])];
    var s := State(false, [], map[7 := Remote({0}, false, false)], {});
    var s1 := State(false, [], map[7 := Remote({0}, false, true)], {});
    OneCounted(s1);
    var s2 := SetInfo(s1, 1);
    LeftOver(s2, s2.peers[7]);
    assert es[4..] == [TorrentClosed([7])];
    OneBack(s1, es, 3, s2, Panic);
    Sole(s.peers[7], s1.peers[7]);
    OneBack(s, es, 2, s1, Panic);
    HeardBefore(0, es, Panic);
  }
}

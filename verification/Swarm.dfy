/** The torrent's connections: the handlers that adjust availability piece by piece, against `Availability`. */
module Swarms {
  import opened Outcomes
  import A = Availability

  type PeerId = A.PeerId

  class Swarm {
    var haveInfo: bool
    var rel: seq<int>
    var peers: map<PeerId, A.Remote>
    var withAll: set<PeerId>

    ghost function View(): A.State
      reads this
    {
      A.State(haveInfo, rel, peers, withAll)
    }

    constructor ()
      ensures View() == A.START && A.Inv(View())
    {
      haveInfo, rel, peers, withAll := false, [], map[], {};
    }

    method DecPieceAvailability(i: nat)
      requires haveInfo ==> i < |rel| && rel[i] > 0
      modifies this`rel
      ensures rel == if haveInfo then old(rel)[i := old(rel)[i] - 1] else old(rel)
    {
      if haveInfo {
        assert rel[i] > 0;                   // panics otherwise
        rel := rel[i := rel[i] - 1];
      }
    }

    method IncPieceAvailability(i: nat)
      requires haveInfo ==> i < |rel|
      modifies this`rel
      ensures rel == if haveInfo then old(rel)[i := old(rel)[i] + 1] else old(rel)
    {
      if haveInfo {
        rel := rel[i := rel[i] + 1];
      }
    }

    /** Iterates over bits that change: those of `held` are lost, the others gained. */
    method Iterate(changed: set<nat>, held: set<nat>)
      requires A.Adjust(View(), changed - held, changed * held).Done?
      modifies this`rel
      ensures A.Adjust(old(View()), changed - held, changed * held) == Done(View())
    {
      ghost var rel0 := rel;
      var left := changed;
      assert !haveInfo || rel == A.Bump(rel0, {} - held, {} * held);
      while left != {}
        invariant left <= changed
        invariant rel == if haveInfo then A.Bump(rel0, (changed - left) - held, (changed - left) * held) else rel0
        decreases left
      {
        var x :| x in left;
        if x in held {
          assert x in changed * held;
          DecPieceAvailability(x);
        } else {
          assert x in changed - held;
          IncPieceAvailability(x);
        }
        left := left - {x};
        assert rel == if haveInfo then A.Bump(rel0, (changed - left) - held, (changed - left) * held) else rel0;
      }
      assert changed - {} == changed;
    }

    /** Takes back everything a peer is counted for. */
    method DecPeerPieceAvailability(p: PeerId)
      requires p in peers && A.Withdraw(View(), p).Done?
      modifies this`rel, this`withAll
      ensures A.Withdraw(old(View()), p) == Done(View())
    {
      if p in withAll {
        withAll := withAll - {p};
        return;
      }
      Drop(peers[p].pieces);
    }

    method Drop(pieces: set<nat>)
      requires A.Adjust(View(), {}, pieces).Done?
      modifies this`rel
      ensures A.Adjust(old(View()), {}, pieces) == Done(View())
    {
      assert pieces - pieces == {} && pieces * pieces == pieces;
      Iterate(pieces, pieces);
    }

    method PeerSentHave(p: PeerId, i: nat) returns (ok: bool)
      requires p in peers && A.Have(View(), p, i).Done?
      modifies this
      ensures ok == !(haveInfo && i >= |rel|) && A.Have(old(View()), p, i) == Done(View())
    {
      if haveInfo && i >= |rel| {
        return false;
      }
      ok := true;
      if A.PeerHas(A.State(haveInfo, rel, peers, withAll), peers[p], i) {
        return;
      }
      ghost var s := View();
      IncPieceAvailability(i);
      assert haveInfo ==> rel == A.Bump(s.rel, {i}, {});
      peers := peers[p := peers[p].(pieces := peers[p].pieces + {i})];
    }

    method OnPeerHasAllPieces(p: PeerId)
      requires p in peers && A.HaveAll(View(), p).Done?
      modifies this
      ensures A.HaveAll(old(View()), p) == Done(View())
    {
      Drop(peers[p].pieces);
      withAll := withAll + {p};
      peers := peers[p := peers[p].(pieces := {}, sentAll := true)];
    }

    method PeerSentHaveNone(p: PeerId)
      requires p in peers && A.HaveNone(View(), p).Done?
      modifies this
      ensures A.HaveNone(old(View()), p) == Done(View())
    {
      if !peers[p].sentAll {
        DecPeerPieceAvailability(p);
      }
      peers := peers[p := peers[p].(pieces := {}, sentAll := false)];
    }

    method PeerSentBitfield(p: PeerId, field: seq<bool>)
      requires p in peers && A.Bitfield(View(), p, field).Done?
      modifies this
      ensures A.Bitfield(old(View()), p, field) == Done(View())
    {
      assert |field| % 8 == 0;                     // "expected bitfield length divisible by 8"
      var bf := field;
      if haveInfo && |bf| > |rel| {
        bf := bf[..|rel|];
      }
      var bm := BoolSliceToBitmap(bf);
      if haveInfo && |bm| == |rel| {
        OnPeerHasAllPieces(p);
        return;
      }
      var c := peers[p];
      var changed := bm;
      if c.sentAll {
        assert p in withAll && c.pieces == {};     // both panic otherwise
        withAll := withAll - {p};
      } else {
        changed := Xor(bm, c.pieces);
      }
      XorTwice(bm, c.pieces, changed);
      hide A.Adjust, Xor;
      Iterate(changed, c.pieces);
      peers := peers[p := c.(pieces := Xor(c.pieces, changed), sentAll := false)];
    }

    method Close(p: PeerId)
      requires p in peers && A.Close(View(), p).Done?
      modifies this
      ensures A.Close(old(View()), p) == Done(View())
    {
      if peers[p].closed {
        return;
      }
      peers := peers[p := peers[p].(closed := true)];
      ghost var s := View();
      assert A.Withdraw(s, p) == match A.Withdraw(old(View()), p) case Panic => Panic case Done(t) => Done(t.(peers := s.peers));
      DecPeerPieceAvailability(p);
    }

    method DeletePeerConn(p: PeerId)
      requires p in peers && A.Delete(View(), p).Done?
      modifies this
      ensures A.Delete(old(View()), p) == Done(View())
    {
      assert peers[p].closed;                        // "connection is not closed"
      peers := peers - {p};
      assert peers == map[] ==> withAll == {};       // panics otherwise
    }

    method SelectivePieceAvailability(n: nat, i: nat) returns (count: nat)
      ensures count == |A.Counted(View(), n, i)|
    {
      count := 0;
      var left := peers.Keys;
      ghost var counted := {};
      while left != {}
        invariant left <= peers.Keys && count == |counted|
        invariant counted == A.Counted(View(), n, i) - left
        decreases left
      {
        var p :| p in left;
        if p !in withAll && (peers[p].sentAll || |peers[p].pieces| == n || i in peers[p].pieces) {
          count := count + 1;
          counted := counted + {p};
        }
        left := left - {p};
      }
      assert counted == A.Counted(View(), n, i);
    }

    /** The info arrives: count every piece, then correct the peers' pieces. */
    method OnSetInfo(n: nat)
      requires !haveInfo
      modifies this
      ensures View() == A.SetInfo(old(View()), n)
    {
      var counts := [];
      for i := 0 to n
        invariant |counts| == i && unchanged(this)
        invariant forall k :: 0 <= k < i ==> counts[k] == |A.Counted(View(), n, k)|
      {
        var count := SelectivePieceAvailability(n, i);
        counts := counts + [count];
      }
      rel, haveInfo := counts, true;
      TrimPieces(n);
    }

    method TrimPieces(n: nat)
      modifies this`peers
      ensures peers == map p | p in old(peers) :: A.Trimmed(old(peers)[p], n)
    {
      var left := peers.Keys;
      while left != {}
        invariant peers.Keys == old(peers).Keys && left <= peers.Keys
        invariant forall p :: p in peers ==> peers[p] == if p in left then old(peers)[p] else A.Trimmed(old(peers)[p], n)
        decreases left
      {
        var p :| p in left;
        peers := peers[p := A.Trimmed(peers[p], n)];
        left := left - {p};
      }
    }

    /** Closing the torrent, its connections in the order given. */
    method CloseTorrent(order: seq<PeerId>)
      requires A.Inv(View()) && A.Lists(order, peers)
      modifies this
      ensures A.Inv(View()) && A.CloseTorrent(old(View()), order) == Done(View())
    {
      ghost var s0 := View();
      A.ClosingLeavesNone(s0, order);
      for k := 0 to |order|
        invariant A.Inv(View()) && peers.Keys == s0.peers.Keys
        invariant A.CloseEach(s0, order) == A.CloseEach(View(), order[k..])
      {
        A.CloseKeeps(View(), order[k]);
        assert order[k..][0] == order[k] && order[k..][1..] == order[k + 1..];
        Close(order[k]);
      }
      assert forall i :: 0 <= i < |rel| ==> rel[i] == 0;   // "piece has relative availability" otherwise
    }
  }

  function Xor(a: set<nat>, b: set<nat>): set<nat> {
    (a - b) + (b - a)
  }

  lemma XorTwice(bm: set<nat>, held: set<nat>, changed: set<nat>)
    requires changed == Xor(bm, held) || (changed == bm && held == {})
    ensures changed - held == bm - held && changed * held == held - bm && Xor(held, changed) == bm
  {
  }

  method BoolSliceToBitmap(bf: seq<bool>) returns (bm: set<nat>)
    ensures bm == A.BitsOf(bf)
  {
    bm := {};
    for i := 0 to |bf|
      invariant bm == A.BitsOf(bf[..i])
    {
      if bf[i] {
        bm := bm + {i};
      }
    }
    assert bf[..|bf|] == bf;
  }
}

/** Bitmaps of request indices: iterating clear bits, counting a range by rank, and the insertion-ordered set. */
module Bitmaps {
  import opened Arith

  ghost predicate Ascending(bits: seq<nat>) {
    forall i, j :: 0 <= i < j < |bits| ==> bits[i] < bits[j]
  }

  /** The clear positions of `[lo, hi)`, in order. */
  function ClearIn(bits: set<nat>, lo: nat, hi: nat): (out: seq<nat>)
    decreases if lo < hi then hi - lo else 0
  {
    if lo >= hi then [] else (if lo in bits then [] else [lo]) + ClearIn(bits, lo + 1, hi)
  }

  lemma ClearInMembers(bits: set<nat>, lo: nat, hi: nat)
    ensures forall x :: x in ClearIn(bits, lo, hi) <==> lo <= x < hi && x !in bits
  {
    forall x: nat ensures x in ClearIn(bits, lo, hi) <==> lo <= x < hi && x !in bits {
      ClearInMember(bits, lo, hi, x);
    }
  }

  lemma {:induction false} ClearInMember(bits: set<nat>, lo: nat, hi: nat, x: nat)
    ensures x in ClearIn(bits, lo, hi) <==> lo <= x < hi && x !in bits
    decreases if lo < hi then hi - lo else 0
  {
    if lo < hi {
      ClearInMember(bits, lo + 1, hi, x);
    }
  }

  lemma {:induction false} ClearSplit(bits: set<nat>, lo: nat, mid: nat, hi: nat)
    requires lo <= mid <= hi
    ensures ClearIn(bits, lo, hi) == ClearIn(bits, lo, mid) + ClearIn(bits, mid, hi)
    decreases mid - lo
  {
    if lo < mid {
      ClearSplit(bits, lo + 1, mid, hi);
      Reassociate(if lo in bits then [] else [lo], ClearIn(bits, lo + 1, mid), ClearIn(bits, mid, hi));
    } else {
      assert ClearIn(bits, lo, mid) == [];
    }
  }

  lemma Reassociate(a: seq<nat>, b: seq<nat>, c: seq<nat>)
    ensures a + (b + c) == (a + b) + c
  {
  }

  lemma ClearStep(bits: set<nat>, lo: nat, i: nat)
    requires lo <= i
    ensures ClearIn(bits, lo, i + 1) == ClearIn(bits, lo, i) + if i in bits then [] else [i]
  {
    ClearSplit(bits, lo, i, i + 1);
    assert ClearIn(bits, i + 1, i + 1) == [];
  }

  /** The inner loop: every position from `from` up to `to`. */
  method VisitRun(sofar: seq<nat>, from: nat, to: nat, ghost dirty: set<nat>, ghost start: nat)
    returns (out: seq<nat>)
    requires start <= from && sofar == ClearIn(dirty, start, from)
    requires forall x :: from <= x < to ==> x !in dirty
    ensures out == if from < to then ClearIn(dirty, start, to) else sofar
  {
    out := sofar;
    var index := from;
    while index < to
      invariant from <= index && (index <= to || index == from)
      invariant out == ClearIn(dirty, start, index)
    {
      ClearStep(dirty, start, index);
      out := out + [index];
      index := index + 1;
    }
  }

  /** Where the iterator stands after skipping everything below `start`. */
  method AdvanceIfNeeded(bits: seq<nat>, start: nat) returns (k: nat)
    requires Ascending(bits)
    ensures k <= |bits|
    ensures forall i :: 0 <= i < k ==> bits[i] < start
    ensures forall i :: k <= i < |bits| ==> start <= bits[i]
  {
    k := 0;
    while k < |bits| && bits[k] < start
      invariant 0 <= k <= |bits|
      invariant forall i :: 0 <= i < k ==> bits[i] < start
    {
      k := k + 1;
    }
  }

  /**
    Visits the positions of `[start, end)` that are not set, given an iterator over the set
    ones. The last dirty position starts at `start - 1`, which wraps when `start` is zero.
  */
  method IterUnsetInRange(bits: seq<nat>, start: nat, end: nat) returns (out: seq<nat>)
    requires Ascending(bits) && start < TWO_32 && end < TWO_32
    requires forall i :: 0 <= i < |bits| ==> bits[i] < TWO_32
    ensures out == ClearIn((set x | x in bits), start, end)
  {
    ghost var dirty := set x | x in bits;
    var k := AdvanceIfNeeded(bits, start);
    out := [];
    var lastDirty := U32(start - 1);
    assert U32(lastDirty + 1) == start;
    hide U32;
    while k < |bits| && bits[k] < end
      invariant k <= |bits| && start <= U32(lastDirty + 1)
      invariant U32(lastDirty + 1) <= end || (U32(lastDirty + 1) == start && out == [])
      invariant forall i :: 0 <= i < k ==> bits[i] < U32(lastDirty + 1)
      invariant forall i :: k <= i < |bits| ==> U32(lastDirty + 1) <= bits[i]
      invariant out == ClearIn(dirty, start, U32(lastDirty + 1))
      decreases |bits| - k
    {
      out := VisitRun(out, U32(lastDirty + 1), bits[k], dirty, start);
      assert bits[k] in dirty;
      ClearStep(dirty, start, bits[k]);
      lastDirty := bits[k];
      k := k + 1;
    }
    out := VisitRun(out, U32(lastDirty + 1), end, dirty, start);
  }

  // ---------- counting by rank ----------

  /** Number of set bits not above `x`. */
  function Rank(bits: set<nat>, x: nat): nat {
    |set b | b in bits && b <= x|
  }

  /** The difference of two ranks, with the 32-bit `end - 1`. */
  function RangeCardinality(bits: set<nat>, start: nat, end: nat): int {
    Rank(bits, U32(end - 1)) - if start != 0 then Rank(bits, start - 1) else 0
  }

  /** The difference counts the range, except that an end of zero counts the whole bitmap. */
  lemma RangeCardinalityCounts(bits: set<nat>, start: nat, end: nat)
    requires start <= end < TWO_32 && forall b :: b in bits ==> b < TWO_32
    ensures RangeCardinality(bits, start, end) == |set b | b in bits && start <= b < end| <==> end > 0 || bits == {}
  {
    var inside := set b | b in bits && start <= b < end;
    if end > 0 {
      var upTo := set b | b in bits && b <= end - 1;
      if start == 0 {
        assert upTo == inside;
      } else {
        var below := set b | b in bits && b <= start - 1;
        assert upTo == below + inside && below !! inside;
      }
    } else {
      assert U32(-1) == TWO_32 - 1;
      assert (set b | b in bits && b <= TWO_32 - 1) == bits;
      assert inside == {};
    }
  }

  // ---------- the insertion-ordered set ----------

  class Element {
    const value: nat

    constructor (value: nat)
      ensures this.value == value
    {
      this.value := value;
    }
  }

  function Values(order: seq<Element>): seq<nat> {
    seq(|order|, i requires 0 <= i < |order| => order[i].value)
  }

  /** Bitmap, insertion order and element map kept in step; the cardinality is taken from the order. */
  class OrderedBitmap {
    var bitmap: set<nat>
    var order: seq<Element>
    var elements: map<nat, Element>

    ghost predicate Valid()
      reads this
    {
      && elements.Keys == bitmap
      && (forall x :: x in elements ==> elements[x].value == x && elements[x] in order)
      && (forall i :: 0 <= i < |order| ==> order[i].value in elements && elements[order[i].value] == order[i])
      && (forall i, j :: 0 <= i < j < |order| ==> order[i] != order[j])
    }

    constructor ()
      ensures Valid() && bitmap == {} && order == []
    {
      bitmap := {};
      order := [];
      elements := map[];
    }

    method Add(x: nat)
      requires Valid()
      modifies this
      ensures Valid() && bitmap == old(bitmap) + {x}
      ensures Values(order) == old(Values(order)) + if x in old(bitmap) then [] else [x]
    {
      bitmap := bitmap + {x};
      if x !in elements {
        var e := new Element(x);
        elements := elements[x := e];
        order := order + [e];
      }
    }

    method CheckedRemove(x: nat) returns (removed: bool)
      requires Valid()
      modifies this
      ensures Valid() && removed == (x in old(bitmap)) && bitmap == old(bitmap) - {x}
      ensures !removed ==> order == old(order)
      ensures removed ==> exists i :: 0 <= i < |old(order)| && old(order)[i].value == x
                                      && Values(order) == old(Values(order))[..i] + old(Values(order))[i + 1..]
    {
      if x !in bitmap {
        return false;
      }
      removed := true;
      bitmap := bitmap - {x};
      var i := Find(x);
      ValuesWithout(order, i);
      order := order[..i] + order[i + 1..];
      elements := elements - {x};
      assert forall j :: 0 <= j < |order| ==> order[j] == old(order)[if j < i then j else j + 1];
      assert old(order)[i].value == x;
    }

    /** The element's place in the list, which the code has by pointer. */
    method Find(x: nat) returns (i: nat)
      requires x in elements && elements[x] in order
      ensures i < |order| && order[i] == elements[x]
    {
      i := 0;
      while order[i] != elements[x]
        invariant i < |order| && elements[x] in order[i..]
        decreases |order| - i
      {
        i := i + 1;
      }
    }

    /** The length of the order is the number of members. */
    lemma CardinalityIsSize()
      requires Valid()
      ensures |order| == |bitmap|
    {
      SizeByOrder(order, bitmap);
    }
  }

  lemma ValuesWithout(order: seq<Element>, i: nat)
    requires i < |order|
    ensures Values(order[..i] + order[i + 1..]) == Values(order)[..i] + Values(order)[i + 1..]
  {
  }

  lemma {:induction false} SizeByOrder(order: seq<Element>, members: set<nat>)
    requires forall i, j :: 0 <= i < j < |order| ==> order[i].value != order[j].value
    requires forall i :: 0 <= i < |order| ==> order[i].value in members
    requires forall x :: x in members ==> exists i :: 0 <= i < |order| && order[i].value == x
    ensures |order| == |members|
  {
    if order == [] {
      assert members == {};
    } else {
      var front, last := order[..|order| - 1], order[|order| - 1].value;
      forall x | x in members - {last} ensures exists i :: 0 <= i < |front| && front[i].value == x {
        var i :| 0 <= i < |order| && order[i].value == x;
        assert front[i].value == x;
      }
      SizeByOrder(front, members - {last});
    }
  }
}

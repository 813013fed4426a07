/** Lists of address ranges: binary search, and the packed binary form with its shared descriptions. */
module IpLists {
  import opened Collections
  import opened Outcomes
  import opened B = Bencode
  import Arith

  datatype Range = Range(first: bytes, last: bytes, description: bytes)

  /** Byte-wise comparison of addresses. */
  predicate AtMost(a: bytes, b: bytes) {
    !Less(b, a)
  }

  predicate Contains(r: Range, ip: bytes) {
    AtMost(r.first, ip) && AtMost(ip, r.last)
  }

  /** Sorted by lower bound and disjoint. */
  predicate Ordered(rs: seq<Range>) {
    && (forall i :: 0 <= i < |rs| ==> AtMost(rs[i].first, rs[i].last))
    && (forall i, j :: 0 <= i < j < |rs| ==> Less(rs[i].last, rs[j].first))
  }

  lemma LessAtMost(a: bytes, b: bytes, c: bytes)
    ensures Less(a, b) && AtMost(b, c) ==> Less(a, c)
    ensures AtMost(a, b) && Less(b, c) ==> Less(a, c)
    ensures AtMost(a, b) && AtMost(b, c) ==> AtMost(a, c)
  {
    LessTotal(a, b);
    LessTotal(b, c);
    LessTotal(a, c);
    if Less(a, b) && Less(b, c) {
      LessTransitive(a, b, c);
    }
  }

  lemma FirstsAscend(rs: seq<Range>, i: nat, j: nat)
    requires Ordered(rs) && i <= j < |rs|
    ensures AtMost(rs[i].first, rs[j].first)
  {
    LessTotal(rs[i].first, rs[j].first);
    if i < j {
      LessAtMost(rs[i].first, rs[i].last, rs[j].first);
    }
  }

  // ---------- search ----------

  /** The condition the search bisects on: the following range, if any, begins after the address. */
  predicate NextExceeds(rs: seq<Range>, ip: bytes, i: nat) {
    i + 1 >= |rs| || Less(ip, rs[i + 1].first)
  }

  /** The least index at which the condition holds, by bisection on the lower bounds alone. */
  method Search(n: nat, first: nat -> bytes, ip: bytes, ghost rs: seq<Range>) returns (i: nat)
    requires Ordered(rs) && |rs| == n && forall k :: 0 <= k < n ==> first(k) == rs[k].first
    ensures i <= |rs| && (|rs| > 0 ==> i < |rs|)
    ensures forall k :: 0 <= k < i ==> !NextExceeds(rs, ip, k)
    ensures i < |rs| ==> NextExceeds(rs, ip, i)
  {
    i := 0;
    var j := n;
    while i < j
      invariant i <= j <= |rs| && (|rs| > 0 ==> i < |rs|)
      invariant forall k :: 0 <= k < i ==> !NextExceeds(rs, ip, k)
      invariant j < |rs| ==> NextExceeds(rs, ip, j)
      decreases j - i
    {
      var h := (i + j) / 2;
      var exceeds := h + 1 >= n || Less(ip, first(h + 1));
      if !exceeds {
        forall k | 0 <= k <= h ensures !NextExceeds(rs, ip, k) {
          FirstsAscend(rs, k + 1, h + 1);
          LessAtMost(ip, rs[k + 1].first, rs[h + 1].first);
        }
        i := h + 1;
      } else {
        j := h;
      }
    }
  }

  /** Only the range the search ends at can contain the address. */
  lemma OnlyCandidate(rs: seq<Range>, ip: bytes, i: nat, j: nat)
    requires Ordered(rs) && i < |rs| && j < |rs| && Contains(rs[j], ip)
    requires NextExceeds(rs, ip, i) && forall k :: 0 <= k < i ==> !NextExceeds(rs, ip, k)
    ensures j == i
  {
    if j < i {
      assert !NextExceeds(rs, ip, i - 1);
      if j < i - 1 {
        FirstsAscend(rs, j + 1, i);
      }
      LessAtMost(rs[j].last, rs[j + 1].first, rs[i].first);
      LessAtMost(ip, rs[j].last, rs[i].first);
    } else if i < j {
      FirstsAscend(rs, i + 1, j);
      LessAtMost(ip, rs[i + 1].first, rs[j].first);
    }
  }

  /** A range is found exactly when one contains the address, and it is one that does. */
  method LookUp(rs: seq<Range>, ip: bytes) returns (r: Option<Range>)
    requires Ordered(rs)
    ensures r.Some? <==> exists j :: 0 <= j < |rs| && Contains(rs[j], ip)
    ensures r.Some? ==> r.value in rs && Contains(r.value, ip)
  {
    var i := Search(|rs|, k => if 0 <= k < |rs| then rs[k].first else [], ip, rs);
    if i == |rs| {
      return None;
    }
    if exists j :: 0 <= j < |rs| && Contains(rs[j], ip) {
      ghost var j: nat :| j < |rs| && Contains(rs[j], ip);
      OnlyCandidate(rs, ip, i, j);
    }
    r := if Contains(rs[i], ip) then Some(rs[i]) else None;
  }

  // ---------- what the order means ----------

  function BigEndian(a: bytes): nat {
    if a == [] then 0 else BigEndian(a[..|a| - 1]) * 256 + a[|a| - 1] as int
  }

  lemma {:induction false} LessSnoc(a: bytes, b: bytes, x: byte, y: byte)
    requires |a| == |b|
    ensures Less(a + [x], b + [y]) <==> Less(a, b) || (a == b && x < y)
    decreases |a|
  {
    if a == [] {
      assert a + [x] == [x] && b + [y] == [y];
      assert [x][1..] == [] && [y][1..] == [];
    } else {
      assert (a + [x])[1..] == a[1..] + [x] && (b + [y])[1..] == b[1..] + [y];
      LessSnoc(a[1..], b[1..], x, y);
      assert a == [a[0]] + a[1..] && b == [b[0]] + b[1..];
    }
  }

  /** Between addresses of one width, byte order is numeric order. */
  lemma {:induction false} OrderIsNumeric(a: bytes, b: bytes)
    requires |a| == |b|
    ensures Less(a, b) <==> BigEndian(a) < BigEndian(b)
    ensures a == b <==> BigEndian(a) == BigEndian(b)
    decreases |a|
  {
    if a != [] {
      var n := |a| - 1;
      OrderIsNumeric(a[..n], b[..n]);
      assert a == a[..n] + [a[n]] && b == b[..n] + [b[n]];
      LessSnoc(a[..n], b[..n], a[n], b[n]);
    }
  }

  lemma {:induction false} LessPrefix(a: bytes, b: bytes)
    requires |a| < |b|
    ensures Less(a, b) <==> AtMost(a, b[..|a|])
    ensures Less(b, a) <==> Less(b[..|a|], a)
    decreases |a|
  {
    if a != [] {
      LessPrefix(a[1..], b[1..]);
      assert b[1..][..|a| - 1] == b[..|a|][1..];
    }
  }

  /** Across widths it is not: a range of short addresses claims every longer one that continues any of them but the last. */
  lemma ShortRangesClaimLongAddresses(r: Range, ip: bytes)
    requires |r.first| == |r.last| < |ip|
    ensures Contains(r, ip) <==> AtMost(r.first, ip[..|r.first|]) && Less(ip[..|r.first|], r.last)
  {
    LessPrefix(r.first, ip);
    LessPrefix(r.last, ip);
    LessTotal(ip, r.first);
    LessTotal(ip, r.last);
    LessTotal(ip[..|r.first|], r.last);
  }

  /** And a range of long addresses claims every shorter one above the beginning of its first and up to that of its last. */
  lemma LongRangesClaimShortAddresses(r: Range, ip: bytes)
    requires |ip| < |r.first| == |r.last|
    ensures Contains(r, ip) <==> Less(r.first[..|ip|], ip) && AtMost(ip, r.last[..|ip|])
  {
    LessPrefix(ip, r.first);
    LessPrefix(ip, r.last);
    LessTotal(ip, r.first);
    LessTotal(ip, r.last);
  }

  // ---------- four and sixteen bytes ----------

  const MAPPED: bytes := [0, 0, 0, 0, 0, 0, 0, 0, 0, 0, 255, 255]

  function To16(ip: bytes): Option<bytes> {
    if |ip| == 4 then Some(MAPPED + ip) else if |ip| == 16 then Some(ip) else None
  }

  function To4(ip: bytes): Option<bytes> {
    if |ip| == 4 then Some(ip) else if |ip| == 16 && ip[..12] == MAPPED then Some(ip[12..]) else None
  }

  /** `Lookup`: as a four-byte address if it is one, then as a sixteen-byte one; neither is "bad IP", which is found. */
  method LookUpIp(rs: seq<Range>, ip: bytes) returns (found: bool)
    requires Ordered(rs)
    ensures found <==> || |ip| !in {4, 16}
                       || (exists j :: 0 <= j < |rs| && To4(ip).Some? && Contains(rs[j], To4(ip).value))
                       || (exists j :: 0 <= j < |rs| && To16(ip).Some? && Contains(rs[j], To16(ip).value))
  {
    if To4(ip).Some? {
      var r := LookUp(rs, To4(ip).value);
      if r.Some? {
        return true;
      }
    }
    if To16(ip).Some? {
      var r := LookUp(rs, To16(ip).value);
      return r.Some?;
    }
    found := true;
  }

  lemma {:induction false} LessSharedPrefix(p: bytes, a: bytes, b: bytes)
    ensures Less(p + a, p + b) <==> Less(a, b)
    decreases |p|
  {
    if p == [] {
      assert p + a == a && p + b == b;
    } else {
      assert (p + a)[1..] == p[1..] + a && (p + b)[1..] == p[1..] + b;
      LessSharedPrefix(p[1..], a, b);
    }
  }

  // ---------- little-endian numbers ----------

  function Pow256(k: nat): (r: nat)
    ensures r > 0
  {
    if k == 0 then 1 else 256 * Pow256(k - 1)
  }

  function PutLE(n: nat, k: nat): (bs: bytes)
    ensures |bs| == k
  {
    if k == 0 then [] else [(n % 256) as byte] + PutLE(n / 256, k - 1)
  }

  function GetLE(bs: bytes): nat {
    if bs == [] then 0 else bs[0] as int + 256 * GetLE(bs[1..])
  }

  lemma {:induction false} LERoundTrip(n: nat, k: nat)
    requires n < Pow256(k)
    ensures GetLE(PutLE(n, k)) == n
  {
    if k > 0 {
      LERoundTrip(n / 256, k - 1);
      assert PutLE(n, k)[1..] == PutLE(n / 256, k - 1);
    } else {
      assert n == 0;
    }
  }

  /** Byte `j` of a number of `k` bytes is its digit at 256 to the `j`: the lowest comes first. */
  lemma {:induction false} LowestFirst(n: nat, k: nat, j: nat)
    requires j < k
    ensures PutLE(n, k)[j] as int == n / Pow256(j) % 256
  {
    if j > 0 {
      LowestFirst(n / 256, k - 1, j - 1);
      DivTwice(n, Pow256(j - 1));
    } else {
      assert n / 1 == n;
    }
  }

  lemma DivTwice(n: nat, m: nat)
    requires m > 0
    ensures n / 256 / m == n / (256 * m)
  {
    var q := n / 256 / m;
    var low := n % 256 + 256 * (n / 256 % m);
    assert n == 256 * (q * m + n / 256 % m) + n % 256;
    assert n == (256 * m) * q + low && 0 <= low < 256 * m;
    Quotient(n, 256 * m, q, low);
  }

  lemma Quotient(n: nat, d: nat, q: nat, low: nat)
    requires d > 0 && n == d * q + low && low < d
    ensures n / d == q
  {
    Arith.DivUnique(n, d, q);
  }

  /** The sixteen-byte form of a four-byte address, and back. */
  lemma MappedForm(a: byte, b: byte, c: byte, d: byte)
    ensures To16([a, b, c, d]) == Some([0, 0, 0, 0, 0, 0, 0, 0, 0, 0, 0xff, 0xff, a, b, c, d])
    ensures To4([0, 0, 0, 0, 0, 0, 0, 0, 0, 0, 0xff, 0xff, a, b, c, d]) == Some([a, b, c, d])
  {
    assert MAPPED + [a, b, c, d] == [0, 0, 0, 0, 0, 0, 0, 0, 0, 0, 0xff, 0xff, a, b, c, d];
    var ip: bytes := [0, 0, 0, 0, 0, 0, 0, 0, 0, 0, 0xff, 0xff, a, b, c, d];
    assert ip[..12] == MAPPED && ip[12..] == [a, b, c, d];
  }

  lemma Powers()
    ensures Pow256(4) == 0x1_0000_0000 && Pow256(8) == 0x1_0000_0000_0000_0000
  {
    assert Pow256(1) == 256 && Pow256(2) == 0x1_0000;
    assert Pow256(3) == 0x100_0000;
    assert Pow256(4) == 0x1_0000_0000;
    assert Pow256(5) == 0x100_0000_0000;
    assert Pow256(6) == 0x1_0000_0000_0000;
    assert Pow256(7) == 0x100_0000_0000_0000;
  }

  // ---------- the packed form ----------

  const HEADER: nat := 8
  const ENTRY: nat := 44

  /** Reads entry `i` of a packed list; an index or description out of range stops the program. */
  function GetRange(p: bytes, i: nat): Outcome<Range> {
    var off := HEADER + ENTRY * i;
    if off + ENTRY > |p| then Panic
    else
      var e := p[off..off + ENTRY];
      var descOff := GetLE(e[32..40]) + HEADER + ENTRY * GetLE(p[..8]);
      var descLen := GetLE(e[40..44]);
      if descOff + descLen > |p| then Panic
      else Done(Range(e[..16], e[16..32], p[descOff..descOff + descLen]))
  }

  /** One entry: both bounds in sixteen bytes, where the description stands, and its length in four. */
  function EntryBytes(r: Range, off: nat): (e: bytes)
    requires To16(r.first).Some? && To16(r.last).Some?
    ensures |e| == ENTRY
  {
    To16(r.first).value + To16(r.last).value + PutLE(off, 8) + PutLE(|r.description|, 4)
  }

  predicate Writable(rs: seq<Range>) {
    forall i :: 0 <= i < |rs| ==> To16(rs[i].first).Some? && To16(rs[i].last).Some?
  }

  function Entries(rs: seq<Range>, offs: seq<nat>): (out: bytes)
    requires Writable(rs) && |rs| == |offs|
    ensures |out| == ENTRY * |rs|
  {
    if rs == [] then []
    else
      var n := |rs| - 1;
      Entries(rs[..n], offs[..n]) + EntryBytes(rs[n], offs[n])
  }

  lemma {:induction false} EntryAt(rs: seq<Range>, offs: seq<nat>, i: nat)
    requires Writable(rs) && |rs| == |offs| && i < |rs|
    ensures ENTRY * i + ENTRY <= |Entries(rs, offs)|
    ensures Entries(rs, offs)[ENTRY * i..ENTRY * i + ENTRY] == EntryBytes(rs[i], offs[i])
    decreases |rs|
  {
    var n := |rs| - 1;
    if i < n {
      EntryAt(rs[..n], offs[..n], i);
    }
  }

  /** Where each description stands in the text of descriptions. */
  ghost predicate Placed(rs: seq<Range>, offs: seq<nat>, text: bytes) {
    && |offs| == |rs|
    && forall i :: 0 <= i < |rs| ==> offs[i] + |rs[i].description| <= |text|
                                     && text[offs[i]..offs[i] + |rs[i].description|] == rs[i].description
  }

  function Packed(rs: seq<Range>, offs: seq<nat>, text: bytes): bytes
    requires Writable(rs) && |rs| == |offs|
  {
    PutLE(|rs|, 8) + Entries(rs, offs) + text
  }

  /** Descriptions seen so far: where each begins, the distinct ones in order, and their total length. */
  datatype Pool = Pool(offsets: map<bytes, nat>, descs: seq<bytes>, next: nat)

  ghost predicate StandsAt(text: bytes, off: nat, d: bytes) {
    off + |d| <= |text| && text[off..off + |d|] == d
  }

  ghost predicate PoolOk(p: Pool) {
    && p.next == |Concat(p.descs)| && NoDup(p.descs) && (forall d :: d in p.descs <==> d in p.offsets)
    && forall d :: d in p.offsets ==> StandsAt(Concat(p.descs), p.offsets[d], d)
  }

  /** Finds or appends a description. */
  method Place(p: Pool, d: bytes) returns (p1: Pool, off: nat)
    requires PoolOk(p)
    ensures PoolOk(p1) && Concat(p.descs) <= Concat(p1.descs) && StandsAt(Concat(p1.descs), off, d)
    ensures p1.descs == if d in p.descs then p.descs else p.descs + [d]
  {
    if d in p.offsets {
      p1, off := p, p.offsets[d];
    } else {
      off := p.next;
      p1 := Pool(p.offsets[d := off], p.descs + [d], p.next + |d|);
      ConcatSnoc(p.descs, d);
      hide Concat;
      forall x | x in p.offsets ensures StandsAt(Concat(p1.descs), p.offsets[x], x) {
        assert StandsAt(Concat(p.descs), p.offsets[x], x);
      }
    }
  }

  /** The distinct descriptions of the ranges, in the order they first occur. */
  function Distinct(rs: seq<Range>): seq<bytes> {
    if rs == [] then []
    else
      var ds, d := Distinct(rs[..|rs| - 1]), rs[|rs| - 1].description;
      if d in ds then ds else ds + [d]
  }

  /** Each description once, and every one. */
  lemma {:induction false} DistinctAre(rs: seq<Range>, d: bytes)
    ensures NoDup(Distinct(rs)) && (d in Distinct(rs) <==> exists i :: 0 <= i < |rs| && rs[i].description == d)
  {
    if rs != [] {
      var n := |rs| - 1;
      DistinctAre(rs[..n], d);
      if i :| 0 <= i < |rs| && rs[i].description == d {
        assert i == n || rs[..n][i].description == d;
      }
      if i :| 0 <= i < n && rs[..n][i].description == d {
        assert rs[i].description == d;
      }
      assert rs[n].description == d ==> exists i :: 0 <= i < |rs| && rs[i].description == d;
    }
  }

  /** The list in one byte string, equal descriptions stored once. */
  method WritePacked(rs: seq<Range>) returns (out: Outcome<bytes>, ghost offs: seq<nat>, ghost text: bytes)
    ensures out.Done? <==> Writable(rs)
    ensures out.Done? ==> Placed(rs, offs, text) && out.value == Packed(rs, offs, text) && text == Concat(Distinct(rs))
  {
    hide EntryBytes, PutLE, Concat, PoolOk, To16, Distinct;
    NoneDistinct();
    var pool := NoDescs();
    var body: bytes := [];
    offs := [];
    for i := 0 to |rs|
      invariant PoolOk(pool) && Writable(rs[..i]) && pool.descs == Distinct(rs[..i])
      invariant Placed(rs[..i], offs, Concat(pool.descs)) && body == Entries(rs[..i], offs)
    {
      var r := rs[i];
      if To16(r.first).None? || To16(r.last).None? {
        return Panic, offs, [];
      }
      var pool1, descOff := Place(pool, r.description);
      PlacedMore(rs[..i], offs, Concat(pool.descs), Concat(pool1.descs));
      PlacedNext(rs[..i], offs, Concat(pool1.descs), r, descOff);
      assert rs[..i + 1] == rs[..i] + [r];
      DistinctNext(rs[..i], r);
      body := body + EntryBytes(r, descOff);
      pool, offs := pool1, offs + [descOff];
    }
    assert rs[..|rs|] == rs;
    text := Concat(pool.descs);
    out := Done(PutLE(|rs|, 8) + body + Concat(pool.descs));
  }

  lemma NoneDistinct()
    ensures Distinct([]) == []
  {
  }

  lemma DistinctNext(rs: seq<Range>, r: Range)
    ensures Distinct(rs + [r]) == if r.description in Distinct(rs) then Distinct(rs) else Distinct(rs) + [r.description]
  {
    assert (rs + [r])[..|rs|] == rs;
  }

  function NoDescs(): (p: Pool)
    ensures PoolOk(p) && p.descs == []
  {
    Pool(map[], [], 0)
  }

  function Concat(ds: seq<bytes>): bytes {
    if ds == [] then [] else Concat(ds[..|ds| - 1]) + ds[|ds| - 1]
  }

  lemma ConcatSnoc(ds: seq<bytes>, d: bytes)
    ensures Concat(ds + [d]) == Concat(ds) + d
  {
    assert (ds + [d])[..|ds|] == ds;
  }

  lemma PlacedMore(rs: seq<Range>, offs: seq<nat>, text: bytes, more: bytes)
    requires Placed(rs, offs, text) && text <= more
    ensures Placed(rs, offs, more)
  {
    forall i | 0 <= i < |rs| ensures StandsAt(more, offs[i], rs[i].description) {
      assert StandsAt(text, offs[i], rs[i].description);
      assert more[offs[i]..offs[i] + |rs[i].description|] == text[offs[i]..offs[i] + |rs[i].description|];
    }
  }

  lemma PlacedNext(rs: seq<Range>, offs: seq<nat>, text: bytes, r: Range, off: nat)
    requires Placed(rs, offs, text) && StandsAt(text, off, r.description)
    requires Writable(rs) && To16(r.first).Some? && To16(r.last).Some?
    ensures Placed(rs + [r], offs + [off], text)
    ensures Writable(rs + [r]) && Entries(rs + [r], offs + [off]) == Entries(rs, offs) + EntryBytes(r, off)
  {
    assert (rs + [r])[..|rs|] == rs && (offs + [off])[..|offs|] == offs;
  }

  // ---------- reading back ----------

  lemma {:induction false} LETruncates(n: nat, k: nat)
    ensures GetLE(PutLE(n, k)) == n % Pow256(k)
  {
    if k > 0 {
      LETruncates(n / 256, k - 1);
      assert PutLE(n, k)[1..] == PutLE(n / 256, k - 1);
      ModSplit(n, Pow256(k - 1));
    } else {
      assert n % 1 == 0;
    }
  }

  lemma ModSplit(n: nat, m: nat)
    requires m > 0
    ensures n % 256 + 256 * (n / 256 % m) == n % (256 * m)
  {
    var q, r := n / 256 / m, n / 256 % m;
    assert n == 256 * (q * m + r) + n % 256;
    var low := n % 256 + 256 * r;
    assert n == (256 * m) * q + low && 0 <= low < 256 * m;
    Remainder(n, 256 * m, q, low);
  }

  lemma Remainder(n: nat, d: nat, q: nat, low: nat)
    requires d > 0 && n == d * q + low && low < d
    ensures n % d == low
  {
    Arith.DivUnique(n, d, q);
  }

  /** The parts of a packed string. */
  lemma PartsOf(rs: seq<Range>, offs: seq<nat>, text: bytes, i: nat)
    requires Writable(rs) && |rs| == |offs| && i < |rs|
    ensures var p, off := Packed(rs, offs, text), HEADER + ENTRY * i;
            && off + ENTRY <= HEADER + ENTRY * |rs| <= |p|
            && p[..8] == PutLE(|rs|, 8)
            && p[off..off + ENTRY] == EntryBytes(rs[i], offs[i])
            && p[HEADER + ENTRY * |rs|..] == text
  {
    EntryAt(rs, offs, i);
    hide EntryBytes, PutLE;
  }

  lemma EntryParts(r: Range, off: nat)
    requires To16(r.first).Some? && To16(r.last).Some?
    ensures var e := EntryBytes(r, off);
            && e[..16] == To16(r.first).value && e[16..32] == To16(r.last).value
            && e[32..40] == PutLE(off, 8) && e[40..44] == PutLE(|r.description|, 4)
  {
  }

  /** The packed form byte by byte: an eight-byte count, entries of 44 bytes, and the descriptions. */
  lemma PackedLayout(rs: seq<Range>, offs: seq<nat>, text: bytes, i: nat)
    requires Writable(rs) && |rs| == |offs| && i < |rs|
    ensures var p, e := Packed(rs, offs, text), 8 + 44 * i;
            && 8 + 44 * |rs| + |text| == |p| && e + 44 <= |p|
            && p[..8] == PutLE(|rs|, 8) && p[8 + 44 * |rs|..] == text
            && p[e..e + 16] == To16(rs[i].first).value && p[e + 16..e + 32] == To16(rs[i].last).value
            && p[e + 32..e + 40] == PutLE(offs[i], 8) && p[e + 40..e + 44] == PutLE(|rs[i].description|, 4)
  {
    hide Packed, PutLE, To16, EntryBytes;
    PartsOf(rs, offs, text, i);
    EntryParts(rs[i], offs[i]);
    EntrySlices(Packed(rs, offs, text), 8 + 44 * i, EntryBytes(rs[i], offs[i]));
  }

  lemma EntrySlices(p: bytes, off: nat, e: bytes)
    requires off + 44 <= |p| && |e| == 44 && p[off..off + 44] == e
    ensures p[off..off + 16] == e[..16] && p[off + 16..off + 32] == e[16..32]
    ensures p[off + 32..off + 40] == e[32..40] && p[off + 40..off + 44] == e[40..44]
  {
    SubSlice(p, off, e, 0, 16);
    SubSlice(p, off, e, 16, 32);
    SubSlice(p, off, e, 32, 40);
    SubSlice(p, off, e, 40, 44);
  }

  lemma SubSlice(p: bytes, off: nat, e: bytes, a: nat, b: nat)
    requires off + |e| <= |p| && p[off..off + |e|] == e && a <= b <= |e|
    ensures p[off + a..off + b] == e[a..b]
  {
    forall k | a <= k < b ensures p[off + k] == e[k] {
      assert p[off..off + |e|][k] == e[k];
    }
  }

  /**
    Reading any index of the packed form gives back that range in sixteen-byte form; of its
    description, as much as a 32-bit length can say.
  */
  lemma ReadsBack(rs: seq<Range>, offs: seq<nat>, text: bytes, i: nat)
    requires Writable(rs) && Placed(rs, offs, text) && i < |rs|
    requires |Packed(rs, offs, text)| < Pow256(8)
    ensures var d := rs[i].description;
            GetRange(Packed(rs, offs, text), i) ==
            Done(Range(To16(rs[i].first).value, To16(rs[i].last).value, d[..|d| % 0x1_0000_0000]))
  {
    var p, d := Packed(rs, offs, text), rs[i].description;
    PartsOf(rs, offs, text, i);
    EntryParts(rs[i], offs[i]);
    Powers();
    LERoundTrip(|rs|, 8);
    LERoundTrip(offs[i], 8);
    LETruncates(|d|, 4);
    hide EntryBytes, PutLE, GetLE, Packed, Pow256, To16;
    DescriptionPart(p, HEADER + ENTRY * |rs|, text, offs[i], d, |d| % 0x1_0000_0000);
  }

  lemma DescriptionPart(p: bytes, start: nat, text: bytes, off: nat, d: bytes, len: nat)
    requires start <= |p| && p[start..] == text && StandsAt(text, off, d) && len <= |d|
    ensures start + off + len <= |p| && p[start + off..start + off + len] == d[..len]
  {
    SubSlice(p, start, text, off, off + len);
    assert text[off..off + len] == text[off..off + |d|][..len];
  }

  lemma CutOrWhole(d: bytes)
    ensures d[..|d| % 0x1_0000_0000] == d <==> |d| < 0x1_0000_0000
  {
    assert |d| < 0x1_0000_0000 ==> d[..|d|] == d;
  }

  /** So the description comes back whole exactly when its length fits four bytes. */
  lemma DescriptionsComeBack(rs: seq<Range>, offs: seq<nat>, text: bytes, i: nat)
    requires Writable(rs) && Placed(rs, offs, text) && i < |rs|
    requires |Packed(rs, offs, text)| < Pow256(8)
    ensures GetRange(Packed(rs, offs, text), i) ==
            Done(Range(To16(rs[i].first).value, To16(rs[i].last).value, rs[i].description))
            <==> |rs[i].description| < 0x1_0000_0000
  {
    hide Packed, Placed, GetRange, Pow256, To16, Writable;
    ReadsBack(rs, offs, text, i);
    CutOrWhole(rs[i].description);
  }

  // ---------- looking up in the packed form ----------

  function GetFirst(p: bytes, i: nat): bytes {
    var off := HEADER + ENTRY * i;
    if off + 16 <= |p| then p[off..off + 16] else []
  }

  /** All bounds have `w` bytes. */
  predicate OfWidth(rs: seq<Range>, w: nat) {
    forall i :: 0 <= i < |rs| ==> |rs[i].first| == w && |rs[i].last| == w
  }

  /** A range as the packed form gives it back. */
  function Widened(r: Range): Range
    requires To16(r.first).Some? && To16(r.last).Some?
  {
    Range(To16(r.first).value, To16(r.last).value, r.description[..|r.description| % 0x1_0000_0000])
  }

  function AllWidened(rs: seq<Range>): seq<Range>
    requires Writable(rs)
  {
    seq(|rs|, i requires 0 <= i < |rs| => Widened(rs[i]))
  }

  lemma WideningKeepsOrder(a: bytes, b: bytes)
    requires |a| == |b| && To16(a).Some?
    ensures To16(b).Some? && (Less(To16(a).value, To16(b).value) <==> Less(a, b))
  {
    LessSharedPrefix(MAPPED, a, b);
  }

  lemma AllWidenedOrdered(rs: seq<Range>, w: nat)
    requires Ordered(rs) && OfWidth(rs, w) && w in {4, 16}
    ensures Writable(rs) && Ordered(AllWidened(rs))
  {
    var ws := AllWidened(rs);
    forall i | 0 <= i < |rs| ensures AtMost(ws[i].first, ws[i].last) {
      WideningKeepsOrder(rs[i].last, rs[i].first);
    }
    forall i, j | 0 <= i < j < |rs| ensures Less(ws[i].last, ws[j].first) {
      WideningKeepsOrder(rs[i].last, rs[j].first);
    }
  }

  /** Looking up any address in the packed form finds exactly the widened range that contains its sixteen-byte form. */
  method LookUpPacked(p: bytes, ip: bytes, ghost rs: seq<Range>, ghost offs: seq<nat>, ghost text: bytes)
    returns (o: Outcome<Option<Range>>)
    requires Writable(rs) && Ordered(AllWidened(rs))
    requires Placed(rs, offs, text) && p == Packed(rs, offs, text) && |p| < Pow256(8)
    ensures o.Panic? <==> To16(ip).None?
    ensures o.Done? ==>
              (o.value.Some? <==> exists j :: 0 <= j < |rs| && Contains(Widened(rs[j]), To16(ip).value))
    ensures o.Done? && o.value.Some? ==>
              exists j :: 0 <= j < |rs| && Contains(Widened(rs[j]), To16(ip).value) && o.value.value == Widened(rs[j])
  {
    if To16(ip).None? {
      return Panic;
    }
    var n := CountOf(p, rs, offs, text);
    EntriesAre(p, rs, offs, text);
    hide Packed, Placed, GetRange, GetFirst, Pow256, Ordered, Contains, Widened, To16;
    var r := LookUpEntries(p, n, To16(ip).value, AllWidened(rs));
    assert forall j :: 0 <= j < |rs| ==> AllWidened(rs)[j] == Widened(rs[j]);
    o := Done(r);
  }

  lemma EntriesAre(p: bytes, rs: seq<Range>, offs: seq<nat>, text: bytes)
    requires Writable(rs) && Placed(rs, offs, text) && p == Packed(rs, offs, text) && |p| < Pow256(8)
    ensures forall k: nat :: k < |rs| ==> GetFirst(p, k) == AllWidened(rs)[k].first && GetRange(p, k) == Done(AllWidened(rs)[k])
  {
    hide Packed, Placed, GetRange, GetFirst, Pow256, To16;
    forall k: nat | k < |rs| ensures GetFirst(p, k) == AllWidened(rs)[k].first && GetRange(p, k) == Done(AllWidened(rs)[k]) {
      ReadsBack(rs, offs, text, k);
      FirstIsFirst(p, k);
    }
  }

  /** For a list of one width and an address of that width, the packed form answers as the list itself does. */
  lemma PackedAnswersAlike(rs: seq<Range>, w: nat, ip: bytes)
    requires Ordered(rs) && OfWidth(rs, w) && w in {4, 16} && |ip| == w
    ensures Writable(rs) && Ordered(AllWidened(rs)) && To16(ip).Some?
    ensures forall j :: 0 <= j < |rs| ==> (Contains(Widened(rs[j]), To16(ip).value) <==> Contains(rs[j], ip))
  {
    AllWidenedOrdered(rs, w);
    WidenedContains(rs, w, ip);
  }

  lemma WidenedContains(rs: seq<Range>, w: nat, ip: bytes)
    requires OfWidth(rs, w) && w in {4, 16} && |ip| == w && Writable(rs)
    ensures forall j :: 0 <= j < |rs| ==> (Contains(Widened(rs[j]), To16(ip).value) <==> Contains(rs[j], ip))
  {
    forall j | 0 <= j < |rs| ensures Contains(Widened(rs[j]), To16(ip).value) <==> Contains(rs[j], ip) {
      WideningKeepsOrder(ip, rs[j].first);
      WideningKeepsOrder(rs[j].last, ip);
    }
  }

  /** The search over the entries themselves. */
  method LookUpEntries(p: bytes, n: nat, ip: bytes, ghost ws: seq<Range>) returns (r: Option<Range>)
    requires Ordered(ws) && |ws| == n
    requires forall k: nat :: k < n ==> GetFirst(p, k) == ws[k].first && GetRange(p, k) == Done(ws[k])
    ensures r.Some? <==> exists j :: 0 <= j < |ws| && Contains(ws[j], ip)
    ensures r.Some? ==> exists j :: 0 <= j < |ws| && Contains(ws[j], ip) && r.value == ws[j]
  {
    hide GetRange, GetFirst, Ordered, Contains;
    r := None;
    var i := Search(n, (k: nat) => GetFirst(p, k), ip, ws);
    if i < n {
      var found := GetRange(p, i).value;
      assert found == ws[i];
      if exists j :: 0 <= j < |ws| && Contains(ws[j], ip) {
        ghost var j: nat :| j < |ws| && Contains(ws[j], ip);
        OnlyCandidate(ws, ip, i, j);
      }
      if Contains(found, ip) {
        r := Some(found);
      }
    }
  }

  method CountOf(p: bytes, ghost rs: seq<Range>, ghost offs: seq<nat>, ghost text: bytes) returns (n: nat)
    requires Writable(rs) && |rs| == |offs| && p == Packed(rs, offs, text) && |p| < Pow256(8)
    ensures n == |rs|
  {
    LERoundTrip(|rs|, 8);
    assert p[..8] == PutLE(|rs|, 8);
    n := GetLE(p[..8]);
  }

  lemma FirstIsFirst(p: bytes, i: nat)
    requires GetRange(p, i).Done?
    ensures GetFirst(p, i) == GetRange(p, i).value.first
  {
    var off := HEADER + ENTRY * i;
    assert p[off..off + ENTRY][..16] == p[off..off + 16];
  }
}

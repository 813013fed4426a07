/**
  Bookkeeping of the read-ahead cache: keys, shards with their eviction order and byte totals,
  and who owns which buffer. Nothing here looks at the cached bytes themselves.
*/
module ReadAhead {
  import opened B = Bencode
  import opened Collections

  type Path = bytes
  type Key = bytes

  const SHARDS: nat := 32
  const POOL: nat := 32

  // ---------- keys ----------

  /** Path, colon, and the number of the chunk in decimal. */
  function ChunkKey(p: Path, off: nat, chunkSize: nat): Key
    requires chunkSize > 0
  {
    p + [COLON] + Digits(off / chunkSize)
  }

  /** What stands before the last colon. */
  function PathOf(key: Key): Path {
    if key == [] then []
    else if key[|key| - 1] == COLON then key[..|key| - 1]
    else PathOf(key[..|key| - 1])
  }

  lemma {:induction false} PathOfJoined(p: Path, ds: bytes)
    requires COLON !in ds
    ensures PathOf(p + [COLON] + ds) == p
    decreases |ds|
  {
    var key := p + [COLON] + ds;
    if ds == [] {
      assert key[..|key| - 1] == p;
    } else {
      assert ds[|ds| - 1] in ds;
      assert key[..|key| - 1] == p + [COLON] + ds[..|ds| - 1];
      PathOfJoined(p, ds[..|ds| - 1]);
    }
  }

  lemma PathOfKey(p: Path, off: nat, chunkSize: nat)
    requires chunkSize > 0
    ensures PathOf(ChunkKey(p, off, chunkSize)) == p
  {
    NoSeparator(off / chunkSize);
    PathOfJoined(p, Digits(off / chunkSize));
  }

  /** Two chunks share a key exactly when they are the same chunk of the same file. */
  lemma KeysAreDistinct(p: Path, q: Path, o1: nat, o2: nat, chunkSize: nat)
    requires chunkSize > 0
    ensures ChunkKey(p, o1, chunkSize) == ChunkKey(q, o2, chunkSize) <==> p == q && o1 / chunkSize == o2 / chunkSize
  {
    if ChunkKey(p, o1, chunkSize) == ChunkKey(q, o2, chunkSize) {
      PathOfKey(p, o1, chunkSize);
      PathOfKey(q, o2, chunkSize);
      var k := ChunkKey(p, o1, chunkSize);
      assert k[|p| + 1..] == Digits(o1 / chunkSize) && k[|q| + 1..] == Digits(o2 / chunkSize);
      NumberOfDigits(o1 / chunkSize);
      NumberOfDigits(o2 / chunkSize);
    }
  }

  predicate OfPath(key: Key, p: Path) {
    p + [COLON] <= key
  }

  /** Evicting a path by key prefix takes all its chunks, and those of paths that go on with a colon. */
  lemma PrefixTakes(p: Path, q: Path, off: nat, chunkSize: nat)
    requires chunkSize > 0
    ensures OfPath(ChunkKey(q, off, chunkSize), p) <==> q == p || p + [COLON] <= q
  {
    var key, ds := ChunkKey(q, off, chunkSize), Digits(off / chunkSize);
    NoSeparator(off / chunkSize);
    if OfPath(key, p) {
      assert forall i :: 0 <= i <= |p| ==> key[i] == (p + [COLON])[i];
      assert forall i :: |q| < i < |key| ==> key[i] == ds[i - |q| - 1] != COLON;
      assert key[|p|] == COLON;
      if |q| == |p| {
        assert key[..|q|] == q && key[..|p|] == p;
      } else if |q| > |p| {
        assert key[..|p| + 1] == q[..|p| + 1];
      }
    }
  }

  // ---------- shards ----------

  datatype RaBuffer = RaBuffer(start: nat, end: int, data: array<byte>, lastAccess: int, session: int)

  datatype Shard = Shard(buffers: map<Key, RaBuffer>, order: seq<Key>, total: int)

  function Size(b: RaBuffer): nat {
    b.data.Length
  }

  /** Bytes held under the listed keys. */
  function SumBy(order: seq<Key>, buffers: map<Key, RaBuffer>): nat
    requires forall k :: k in order ==> k in buffers
  {
    if order == [] then 0
    else
      assert order[0] in order;
      Size(buffers[order[0]]) + SumBy(order[1..], buffers)
  }

  /** The order lists each cached key once, and the total is the sum of their sizes. */
  ghost predicate ShardOk(s: Shard) {
    && NoDup(s.order)
    && (forall k :: k in s.order <==> k in s.buffers)
    && s.total == SumBy(s.order, s.buffers)
  }

  lemma {:induction false} SumAppend(a: seq<Key>, b: seq<Key>, buffers: map<Key, RaBuffer>)
    requires (forall k :: k in a ==> k in buffers) && forall k :: k in b ==> k in buffers
    ensures SumBy(a + b, buffers) == SumBy(a, buffers) + SumBy(b, buffers)
    decreases |a|
  {
    if a == [] {
      assert a + b == b;
    } else {
      assert (a + b)[1..] == a[1..] + b;
      SumAppend(a[1..], b, buffers);
    }
  }

  /** Only what is listed counts. */
  lemma {:induction false} SumSame(order: seq<Key>, m1: map<Key, RaBuffer>, m2: map<Key, RaBuffer>)
    requires forall k :: k in order ==> k in m1 && k in m2 && Size(m1[k]) == Size(m2[k])
    ensures SumBy(order, m1) == SumBy(order, m2)
    decreases |order|
  {
    if order != [] {
      assert order[0] in order;
      SumSame(order[1..], m1, m2);
    }
  }

  lemma SumOne(k: Key, buffers: map<Key, RaBuffer>)
    requires k in buffers
    ensures SumBy([k], buffers) == Size(buffers[k])
  {
    assert SumBy([k][1..], buffers) == 0;
  }

  /** Without its oldest chunk. */
  function Evicted(s: Shard): Shard
    requires s.order != [] && s.order[0] in s.buffers
  {
    Shard(s.buffers - {s.order[0]}, s.order[1..], s.total - Size(s.buffers[s.order[0]]))
  }

  /** Without the chunk under `key`, at position `i` of the order. */
  function Removed(s: Shard, i: nat): Shard
    requires i < |s.order| && s.order[i] in s.buffers
  {
    Shard(s.buffers - {s.order[i]}, s.order[..i] + s.order[i + 1..], s.total - Size(s.buffers[s.order[i]]))
  }

  lemma RemovedSum(order: seq<Key>, i: nat, buffers: map<Key, RaBuffer>)
    requires i < |order| && forall k :: k in order ==> k in buffers
    ensures SumBy(order[..i] + order[i + 1..], buffers) == SumBy(order, buffers) - Size(buffers[order[i]])
  {
    var key := order[i];
    var a, b := order[..i], order[i + 1..];
    assert order == a + ([key] + b);
    SumAppend(a, [key] + b, buffers);
    SumAppend([key], b, buffers);
    SumOne(key, buffers);
    SumAppend(a, b, buffers);
  }

  lemma RemovedKeys(order: seq<Key>, i: nat)
    requires NoDup(order) && i < |order|
    ensures NoDup(order[..i] + order[i + 1..])
    ensures forall k :: k in order[..i] + order[i + 1..] <==> k in order && k != order[i]
  {
    var rest := order[..i] + order[i + 1..];
    forall k | k in order && k != order[i] ensures k in rest {
      var j :| 0 <= j < |order| && order[j] == k;
      assert rest[if j < i then j else j - 1] == k;
    }
  }

  lemma RemovedOk(s: Shard, i: nat)
    requires ShardOk(s) && i < |s.order|
    ensures s.order[i] in s.buffers && ShardOk(Removed(s, i))
  {
    assert s.order[i] in s.order;
    RemovedKeys(s.order, i);
    RemovedSum(s.order, i, s.buffers);
    RestOk(s, s.order[i], s.order[..i] + s.order[i + 1..]);
  }

  lemma RestOk(s: Shard, key: Key, rest: seq<Key>)
    requires ShardOk(s) && key in s.buffers && NoDup(rest) && forall k :: k in rest <==> k in s.order && k != key
    requires SumBy(rest, s.buffers) == s.total - Size(s.buffers[key])
    ensures ShardOk(Shard(s.buffers - {key}, rest, s.total - Size(s.buffers[key])))
  {
    hide NoDup, SumBy;
    SumSame(rest, s.buffers, s.buffers - {key});
  }

  /** With a new chunk, the most recent. */
  function Added(s: Shard, key: Key, b: RaBuffer): Shard {
    Shard(s.buffers[key := b], s.order + [key], s.total + Size(b))
  }

  lemma AddedOk(s: Shard, key: Key, b: RaBuffer)
    requires ShardOk(s) && key !in s.buffers
    ensures ShardOk(Added(s, key, b))
  {
    var m := s.buffers[key := b];
    assert forall k :: k in s.order + [key] <==> k in s.order || k == key;
    SumSame(s.order, s.buffers, m);
    SumAppend(s.order, [key], m);
    SumOne(key, m);
  }

  /** With a chunk marked as just used. */
  function Touched(s: Shard, key: Key, now: int): Shard
    requires key in s.buffers
  {
    s.(buffers := s.buffers[key := s.buffers[key].(lastAccess := now)])
  }

  lemma TouchedOk(s: Shard, key: Key, now: int)
    requires ShardOk(s) && key in s.buffers
    ensures ShardOk(Touched(s, key, now))
  {
    SumSame(s.order, s.buffers, Touched(s, key, now).buffers);
  }

  // ---------- totals ----------

  function SumTotals(shards: seq<Shard>): int {
    if shards == [] then 0 else shards[0].total + SumTotals(shards[1..])
  }

  lemma {:induction false} SumTotalsUpdate(shards: seq<Shard>, i: nat, s: Shard)
    requires i < |shards|
    ensures SumTotals(shards[i := s]) == SumTotals(shards) - shards[i].total + s.total
    decreases |shards|
  {
    if i == 0 {
      assert shards[0 := s][1..] == shards[1..];
    } else {
      assert shards[i := s][1..] == shards[1..][i - 1 := s];
      SumTotalsUpdate(shards[1..], i - 1, s);
    }
  }

  // ---------- ownership ----------

  /** No array is held by two chunks, nor twice by the pool, nor by both. */
  ghost predicate Owns(shards: seq<Shard>, pool: seq<array<byte>>) {
    && (forall i, k, j, l ::
          (&& 0 <= i < |shards| && k in shards[i].buffers && 0 <= j < |shards| && l in shards[j].buffers
           && shards[i].buffers[k].data == shards[j].buffers[l].data)
          ==> i == j && k == l)
    && (forall i, k :: 0 <= i < |shards| && k in shards[i].buffers ==> shards[i].buffers[k].data !in pool)
    && (forall i, j :: 0 <= i < j < |pool| ==> pool[i] != pool[j])
  }

  ghost predicate Unowned(a: array<byte>, shards: seq<Shard>, pool: seq<array<byte>>) {
    a !in pool && forall i, k :: 0 <= i < |shards| && k in shards[i].buffers ==> shards[i].buffers[k].data != a
  }

  /** A shard that keeps some of its chunks, or has touched them, holds no new arrays. */
  ghost predicate Shrinks(s: Shard, s1: Shard) {
    forall k :: k in s1.buffers ==> k in s.buffers && s1.buffers[k].data == s.buffers[k].data
  }

  /** As it was, but for chunks taken out and times of last use. */
  ghost predicate Keeps(s: Shard, s1: Shard) {
    forall k :: k in s1.buffers ==> k in s.buffers && s1.buffers[k] == s.buffers[k].(lastAccess := s1.buffers[k].lastAccess)
  }

  lemma OwnsLess(shards: seq<Shard>, pool: seq<array<byte>>, i: nat, s: Shard)
    requires Owns(shards, pool) && i < |shards| && Shrinks(shards[i], s)
    ensures Owns(shards[i := s], pool)
  {
  }

  lemma OwnsPut(shards: seq<Shard>, pool: seq<array<byte>>, i: nat, key: Key, b: RaBuffer)
    requires Owns(shards, pool) && i < |shards| && key !in shards[i].buffers && Unowned(b.data, shards, pool)
    ensures Owns(shards[i := Added(shards[i], key, b)], pool)
  {
  }

  lemma OwnsRecycle(shards: seq<Shard>, pool: seq<array<byte>>, a: array<byte>)
    requires Owns(shards, pool) && Unowned(a, shards, pool)
    ensures Owns(shards, pool + [a])
  {
  }

  lemma OwnsTake(shards: seq<Shard>, pool: seq<array<byte>>)
    requires Owns(shards, pool) && pool != []
    ensures Owns(shards, pool[1..]) && Unowned(pool[0], shards, pool[1..])
  {
    assert pool[0] in pool;
    assert forall a :: a in pool[1..] ==> a in pool;
  }

  /** What leaves a shard is nobody's. */
  lemma Dropped(shards: seq<Shard>, pool: seq<array<byte>>, i: nat, key: Key, s: Shard)
    requires Owns(shards, pool) && i < |shards| && key in shards[i].buffers && Shrinks(shards[i], s) && key !in s.buffers
    ensures Unowned(shards[i].buffers[key].data, shards[i := s], pool)
  {
  }

  /** The books: every shard in order, the global count exact, every array with one owner, the pool within its capacity. */
  ghost predicate BooksOk(shards: seq<Shard>, used: int, pool: seq<array<byte>>) {
    && |shards| == SHARDS
    && (forall i :: 0 <= i < SHARDS ==> ShardOk(shards[i]))
    && used == SumTotals(shards)
    && Owns(shards, pool) && |pool| <= POOL
  }

  /** Replacing a shard by one that keeps only chunks it had. */
  lemma BooksLess(shards: seq<Shard>, used: int, pool: seq<array<byte>>, i: nat, s: Shard)
    requires BooksOk(shards, used, pool) && i < SHARDS && ShardOk(s) && Keeps(shards[i], s)
    ensures BooksOk(shards[i := s], used - shards[i].total + s.total, pool)
  {
    hide ShardOk;
    SumTotalsUpdate(shards, i, s);
    OwnsLess(shards, pool, i, s);
    hide Owns;
  }

  lemma {:induction false} OrderSize(order: seq<Key>, keys: set<Key>)
    requires NoDup(order) && forall k :: k in order <==> k in keys
    ensures |order| == |keys|
    decreases |order|
  {
    if order == [] {
      assert keys == {};
    } else {
      var n := |order| - 1;
      assert forall k :: k in order <==> k in order[..n] || k == order[n];
      OrderSize(order[..n], keys - {order[n]});
    }
  }

  /** So the order never outgrows the buffers, and is never due for compaction. */
  lemma NeverCompacts(s: Shard)
    requires ShardOk(s)
    ensures |s.order| == |s.buffers| && !(|s.order| > 100 && |s.order| > |s.buffers| * 2)
  {
    OrderSize(s.order, s.buffers.Keys);
    assert |s.buffers| == |s.buffers.Keys|;
  }

  lemma BooksMore(shards: seq<Shard>, used: int, pool: seq<array<byte>>, i: nat, key: Key, b: RaBuffer)
    requires BooksOk(shards, used, pool) && i < SHARDS && key !in shards[i].buffers && Unowned(b.data, shards, pool)
    ensures BooksOk(shards[i := Added(shards[i], key, b)], used + Size(b), pool)
  {
    assert ShardOk(shards[i]);
    AddedOk(shards[i], key, b);
    hide ShardOk;
    SumTotalsUpdate(shards, i, Added(shards[i], key, b));
    OwnsPut(shards, pool, i, key, b);
    hide Owns;
  }

  lemma RemovedFirst(s: Shard)
    requires s.order != [] && s.order[0] in s.buffers
    ensures Removed(s, 0) == Evicted(s)
  {
    assert s.order[..0] + s.order[1..] == s.order[1..];
  }

  // ---------- order ----------

  /** The order without a key, and with the key as the most recent. */
  function Others(order: seq<Key>, key: Key): seq<Key> {
    if order == [] then []
    else if order[0] == key then order[1..]
    else [order[0]] + Others(order[1..], key)
  }

  function Promoted(order: seq<Key>, key: Key): seq<Key> {
    Others(order, key) + [key]
  }

  lemma {:induction false} OthersAt(order: seq<Key>, key: Key, i: nat)
    requires i <= |order| && (forall j :: 0 <= j < i ==> order[j] != key) && (i < |order| ==> order[i] == key)
    ensures Others(order, key) == order[..i] + if i < |order| then order[i + 1..] else []
    decreases |order|
  {
    if i > 0 {
      OthersAt(order[1..], key, i - 1);
      assert order == [order[0]] + order[1..];
      assert order[1..][..i - 1] == order[1..i];
    }
  }

  /** The order restricted to some keys. */
  function Only(order: seq<Key>, keep: set<Key>): seq<Key> {
    if order == [] then [] else (if order[0] in keep then [order[0]] else []) + Only(order[1..], keep)
  }

  lemma {:induction false} OnlyMembers(order: seq<Key>, keep: set<Key>)
    ensures forall k :: k in Only(order, keep) <==> k in order && k in keep
    decreases |order|
  {
    if order != [] {
      OnlyMembers(order[1..], keep);
      assert forall k :: k in order <==> k == order[0] || k in order[1..];
    }
  }

  lemma {:induction false} OnlyAppend(a: seq<Key>, b: seq<Key>, keep: set<Key>)
    ensures Only(a + b, keep) == Only(a, keep) + Only(b, keep)
    decreases |a|
  {
    if a == [] {
      assert a + b == b;
    } else {
      assert (a + b)[1..] == a[1..] + b;
      OnlyAppend(a[1..], b, keep);
    }
  }

  lemma OnlyNext(order: seq<Key>, n: nat, keep: set<Key>)
    requires n < |order|
    ensures Only(order[..n + 1], keep) == Only(order[..n], keep) + if order[n] in keep then [order[n]] else []
  {
    assert order[..n + 1] == order[..n] + [order[n]];
    OnlyAppend(order[..n], [order[n]], keep);
    assert Only([order[n]][1..], keep) == [];
  }

  lemma {:induction false} OnlyNoDup(order: seq<Key>, keep: set<Key>)
    requires NoDup(order)
    ensures NoDup(Only(order, keep))
    decreases |order|
  {
    if order != [] {
      OnlyNoDup(order[1..], keep);
      OnlyMembers(order[1..], keep);
    }
  }

  /** A shard without some of its chunks. */
  ghost predicate Without(s: Shard, s1: Shard, gone: set<Key>) {
    s1.buffers == s.buffers - gone && s1.order == Only(s.order, s.buffers.Keys - gone)
  }

  /** With the total lowered by what was freed, it is in order again. */
  lemma WithoutOk(s: Shard, s1: Shard, gone: set<Key>)
    requires ShardOk(s) && Without(s, s1, gone)
    ensures (forall k :: k in s1.order ==> k in s1.buffers) && NoDup(s1.order)
    ensures s1.total == SumBy(s1.order, s1.buffers) ==> ShardOk(s1)
  {
    OnlyNoDup(s.order, s.buffers.Keys - gone);
    OnlyMembers(s.order, s.buffers.Keys - gone);
  }

  // ---------- staleness ----------

  const SECOND: int := 1_000_000_000

  /** What the global eviction keeps: the active path's chunks used within a minute, and the session's within two. */
  predicate KeepsChunk(key: Key, b: RaBuffer, activePath: Path, session: int, now: int) {
    if b.session != session && !OfPath(key, activePath) then false
    else now - b.lastAccess <= (if OfPath(key, activePath) then 60 else 120) * SECOND
  }

  function Stale(s: Shard, activePath: Path, session: int, now: int): set<Key> {
    set k | k in s.buffers && !KeepsChunk(k, s.buffers[k], activePath, session, now)
  }

  function ChunksOf(s: Shard, p: Path): set<Key> {
    set k | k in s.buffers && OfPath(k, p)
  }

  /** Part way through an order: what has been decided, then what has not. */
  lemma SweepStep(order: seq<Key>, n: nat, keep: set<Key>)
    requires n < |order|
    ensures var done, at := Only(order[..n], keep), |Only(order[..n], keep)|;
            var cur := done + order[n..];
            && at < |cur| && cur[at] == order[n]
            && (if order[n] in keep
                then cur == Only(order[..n + 1], keep) + order[n + 1..] && |Only(order[..n + 1], keep)| == at + 1
                else cur[..at] + cur[at + 1..] == Only(order[..n + 1], keep) + order[n + 1..]
                     && |Only(order[..n + 1], keep)| == at)
  {
    OnlyNext(order, n, keep);
  }
}

/** The read-ahead cache object: buffers on the heap, recycled through a pool, and the operations on them. */
module RaCaches {
  import opened Collections
  import opened Outcomes
  import opened B = Bencode
  import opened R = ReadAhead

  class ReadAheadCache {
    const chunkSize: nat                    // ReadAheadBase, or its default
    const budget: int                       // ReadAheadBudget, or its default
    const hash: Path -> nat
    ghost const file: (Path, nat) -> byte   // what the files hold
    var shards: seq<Shard>
    var used: int
    var pool: seq<array<byte>>
    var activePath: Path
    var session: int

    function ShardOf(p: Path): (i: nat)
      ensures i < SHARDS
    {
      hash(p) % SHARDS
    }

    ghost predicate Books()
      reads this
    {
      chunkSize > 0 && BooksOk(shards, used, pool)
    }

    /** The chunk under `key` in shard `i` holds bytes of its path's file, and as many as it says. */
    ghost predicate Genuine(i: nat, key: Key, start: nat, end: int, data: array<byte>)
      reads data
    {
      && chunkSize > 0
      && key == ChunkKey(PathOf(key), start, chunkSize)
      && ShardOf(PathOf(key)) == i
      && data.Length == end - start + 1
      && forall n :: 0 <= n < data.Length ==> data[n] == file(PathOf(key), start + n)
    }

    ghost predicate AllGenuine(i: nat, s: Shard)
      reads set k | k in s.buffers :: s.buffers[k].data
    {
      forall k :: k in s.buffers ==> Genuine(i, k, s.buffers[k].start, s.buffers[k].end, s.buffers[k].data)
    }

    ghost predicate EveryChunkGenuine()
      reads *
    {
      forall i :: 0 <= i < |shards| ==> AllGenuine(i, shards[i])
    }

    ghost predicate Valid()
      reads *
    {
      Books() && EveryChunkGenuine()
    }

    /** The file's bytes from `off` to `end`, both included. */
    ghost function Slice(p: Path, off: nat, end: int): bytes
      requires off <= end + 1
    {
      seq(end - off + 1, n requires 0 <= n => file(p, off + n))
    }

    constructor (chunkSize: nat, budget: int, hash: Path -> nat, ghost file: (Path, nat) -> byte)
      requires chunkSize > 0
      ensures Valid() && used == 0 && pool == [] && this.file == file
    {
      this.chunkSize, this.budget, this.hash, this.file := chunkSize, budget, hash, file;
      shards := seq(SHARDS, _ => Shard(map[], [], 0));
      used, pool, activePath, session := 0, [], [], 0;
      new;
      NothingTotal(shards);
    }

    /** A path change makes all buffers of the old session stale at once. */
    method SwitchContext(newPath: Path) returns (evict: bool)
      modifies this`activePath, this`session
      ensures activePath == newPath && evict == (newPath != old(activePath))
      ensures session == old(session) + if evict then 1 else 0
    {
      evict := newPath != activePath;
      if evict {
        activePath := newPath;
        session := session + 1;
      }
    }

    // ---------- reading ----------

    /** The requested bytes lie in one chunk, or run over the end of one into the next. */
    ghost predicate Covers(p: Path, off: nat, end: int)
      requires chunkSize > 0 && |shards| == SHARDS
      reads this
    {
      var bs := shards[ShardOf(p)].buffers;
      var k1 := ChunkKey(p, off, chunkSize);
      && k1 in bs && bs[k1].start <= off <= bs[k1].end
      && (end <= bs[k1].end ||
          (end >= 0 && var k2 := ChunkKey(p, end, chunkSize);
                       k2 in bs && bs[k2].start == bs[k1].end + 1 && bs[k2].end >= end))
    }

    /** A chunk of the file of `p`. */
    ghost predicate Holds(p: Path, b: RaBuffer)
      reads b.data
    {
      b.data.Length == b.end - b.start + 1 && forall n :: 0 <= n < b.data.Length ==> b.data[n] == file(p, b.start + n)
    }

    lemma FoundHolds(p: Path, off: nat)
      requires Valid() && ChunkKey(p, off, chunkSize) in shards[ShardOf(p)].buffers
      ensures Holds(p, shards[ShardOf(p)].buffers[ChunkKey(p, off, chunkSize)])
    {
      InOrder(ShardOf(p));
      PathOfKey(p, off, chunkSize);
      GenuineHolds(ShardOf(p), shards[ShardOf(p)], ChunkKey(p, off, chunkSize));
    }

    lemma GenuineHolds(i: nat, s: Shard, key: Key)
      requires AllGenuine(i, s) && key in s.buffers
      ensures Holds(PathOf(key), s.buffers[key])
    {
      hide PathOf, ChunkKey;
      var b := s.buffers[key];
      assert Genuine(i, key, b.start, b.end, b.data);
    }

    /** The one or two chunks the request lies in. */
    method Find(p: Path, off: nat, end: int) returns (first: Option<RaBuffer>, second: Option<RaBuffer>)
      requires Valid() && off <= end + 1
      ensures first.Some? == Covers(p, off, end)
      ensures first.Some? ==> var b := first.value; b.start <= off <= b.end && Holds(p, b) && (second.None? <==> end <= b.end)
      ensures first.Some? && second.Some? ==>
                var b := second.value; b.start == first.value.end + 1 && b.end >= end && Holds(p, b)
    {
      first, second := None, None;
      var bs, key := shards[ShardOf(p)].buffers, ChunkKey(p, off, chunkSize);
      if key in bs && bs[key].start <= off <= bs[key].end {
        FoundHolds(p, off);
        hide Valid, ChunkKey, Holds;
        if end <= bs[key].end {
          first := Some(bs[key]);
        } else {
          var key2 := ChunkKey(p, end, chunkSize);
          if key2 in bs && bs[key2].start == bs[key].end + 1 && bs[key2].end >= end {
            FoundHolds(p, end);
            first, second := Some(bs[key]), Some(bs[key2]);
          }
        }
      }
    }

    /** A hit returns exactly the file's bytes, also when stitched from two chunks. */
    method Get(p: Path, off: nat, end: int) returns (r: Option<bytes>)
      requires Valid() && off <= end + 1
      ensures r.Some? == Covers(p, off, end)
      ensures r.Some? ==> r.value == Slice(p, off, end)
    {
      hide Valid, Covers;
      var first, second := Find(p, off, end);
      if first.None? {
        return None;
      }
      var b := first.value;
      if second.None? {
        r := Some(b.data[off - b.start..end - b.start + 1]);
      } else {
        r := Some(b.data[off - b.start..] + second.value.data[..end - second.value.start + 1]);
      }
      assert |r.value| == end - off + 1;
    }

    /** Copies what fits of the requested bytes; nothing on a miss. */
    method CopyTo(p: Path, off: nat, end: int, dest: array<byte>) returns (n: nat)
      requires Valid() && off <= end + 1
      requires forall i, k :: 0 <= i < |shards| && k in shards[i].buffers ==> shards[i].buffers[k].data != dest
      modifies dest
      ensures n == if Covers(p, off, end) then Min(dest.Length, end - off + 1) else 0
      ensures n <= dest.Length && dest[..n] == Slice(p, off, off + n - 1) && dest[n..] == old(dest[n..])
    {
      var r := Get(p, off, end);
      hide Valid, Covers;
      if r.None? {
        return 0;
      }
      n := Copy(dest, r.value);
    }

    /** What a read leaves behind: the chunks it used are marked as just used, and nothing else changes. */
    method MarkUsed(p: Path, off: nat, end: int, now: int)
      requires Valid() && off <= end + 1
      modifies this`shards, this`used
      ensures Valid() && used == old(used) && |shards| == |old(shards)| == SHARDS
      ensures shards == old(shards)[ShardOf(p) := Marked(old(shards)[ShardOf(p)], ChunkKey(p, off, chunkSize),
                                                          ChunkKey(p, if end < 0 then 0 else end, chunkSize), off, end, now)]
    {
      var i, k1, k2 := ShardOf(p), ChunkKey(p, off, chunkSize), ChunkKey(p, if end < 0 then 0 else end, chunkSize);
      InOrder(i);
      MarkedOk(shards[i], k1, k2, off, end, now);
      hide Valid, ChunkKey, ShardOk, Keeps, Marked;
      var s := Mark(shards[i], k1, k2, off, end, now);
      Replace(i, s, used);
    }

    /** Puts a changed shard, with no chunk it did not have, in its place. */
    method Replace(i: nat, s: Shard, newUsed: int)
      requires Valid() && i < SHARDS && ShardOk(s) && newUsed == used - shards[i].total + s.total
      requires Keeps(shards[i], s)
      modifies this`shards, this`used
      ensures Valid() && shards == old(shards)[i := s] && used == newUsed
    {
      BooksLess(shards, used, pool, i, s);
      assert |shards| == SHARDS;
      KeptGenuine(i, shards[i], s);
      OneReplaced(shards, i, s, shards[i := s]);
      hide BooksOk, ShardOk, AllGenuine, Keeps;
      shards := shards[i := s];
      used := newUsed;
    }

    lemma KeptGenuine(i: nat, s: Shard, s1: Shard)
      requires AllGenuine(i, s) && Keeps(s, s1)
      ensures AllGenuine(i, s1)
    {
      hide Genuine;
      forall k | k in s1.buffers ensures Genuine(i, k, s1.buffers[k].start, s1.buffers[k].end, s1.buffers[k].data) {
        assert Genuine(i, k, s.buffers[k].start, s.buffers[k].end, s.buffers[k].data);
      }
    }

    /** What has been put can be read: any part of a stored chunk whose beginning falls under the chunk's key. */
    lemma StoredIsFound(p: Path, start: nat, end: int, off: nat, last: int)
      requires chunkSize > 0 && |shards| == SHARDS && start <= off <= last <= end && off / chunkSize == start / chunkSize
      requires var bs, key := shards[ShardOf(p)].buffers, ChunkKey(p, start, chunkSize);
               key in bs && bs[key].start == start && bs[key].end == end
      ensures Covers(p, off, last)
    {
    }

    /** And so can what runs from one stored chunk into the next. */
    lemma StitchedIsFound(p: Path, start: nat, end: int, start2: nat, end2: int, off: nat, last: int)
      requires chunkSize > 0 && |shards| == SHARDS && start <= off <= end < last <= end2 && start2 == end + 1
      requires off / chunkSize == start / chunkSize && last / chunkSize == start2 / chunkSize
      requires var bs, key, key2 := shards[ShardOf(p)].buffers, ChunkKey(p, start, chunkSize), ChunkKey(p, start2, chunkSize);
               && key in bs && bs[key].start == start && bs[key].end == end
               && key2 in bs && bs[key2].start == start2 && bs[key2].end == end2
      ensures Covers(p, off, last)
    {
    }

    // ---------- writing ----------

    method Recycle(a: array<byte>)
      requires Valid() && Unowned(a, shards, pool)
      modifies this`pool
      ensures Valid() && pool == if a.Length == chunkSize && |old(pool)| < 32 then old(pool) + [a] else old(pool)
    {
      OwnsRecycle(shards, pool, a);
      if a.Length == chunkSize && |pool| < POOL {
        hide Owns, ShardOk, SumTotals, Genuine;
        pool := pool + [a];
      }
    }

    /** A buffer of the right size, from the pool if its next one fits. */
    method TakeBuffer(n: nat) returns (a: array<byte>)
      requires Valid()
      modifies this`pool
      ensures Valid() && Unowned(a, shards, pool) && a.Length == n
      ensures pool == if old(pool) == [] then [] else old(pool)[1..]
      ensures if old(pool) != [] && old(pool)[0].Length == n then a == old(pool)[0] else fresh(a)
    {
      if pool != [] {
        OwnsTake(shards, pool);
        hide Owns, ShardOk, SumTotals, Genuine, Unowned;
        a := pool[0];
        pool := pool[1..];
        if a.Length == n {
          return;
        }
      }
      a := New(n);
    }

    method New(n: nat) returns (a: array<byte>)
      requires Valid()
      ensures Valid() && Unowned(a, shards, pool) && a.Length == n && fresh(a)
    {
      a := new byte[n](_ => 0);
      Undisturbed();
    }

    twostate lemma Undisturbed()
      requires old(Valid()) && unchanged(this)
      requires forall i, k :: 0 <= i < |shards| && k in shards[i].buffers ==> unchanged(shards[i].buffers[k].data)
      ensures Valid()
    {
      hide BooksOk, Genuine;
      forall i | 0 <= i < |shards| ensures AllGenuine(i, shards[i]) {
        assert old(AllGenuine(i, shards[i]));
        var bs := shards[i].buffers;
        forall k | k in bs ensures Genuine(i, k, bs[k].start, bs[k].end, bs[k].data) {
          assert old(Genuine(i, k, bs[k].start, bs[k].end, bs[k].data));
        }
      }
    }

    method Fill(a: array<byte>, d: bytes)
      requires Valid() && Unowned(a, shards, pool) && a.Length == |d|
      modifies a
      ensures Valid() && a[..] == d
    {
      for n := 0 to |d|
        invariant forall m :: 0 <= m < n ==> a[m] == d[m]
      {
        a[n] := d[n];
      }
      Undisturbed();
    }

    /** Takes one chunk out of a shard; its buffer goes to the pool if there is room. */
    method RemoveAt(i: nat, at: nat)
      requires Valid() && i < SHARDS && at < |shards[i].order|
      modifies this`shards, this`used, this`pool
      ensures Valid() && old(shards)[i].order[at] in old(shards)[i].buffers
      ensures shards == old(shards)[i := Removed(old(shards)[i], at)]
      ensures used == old(used) - Size(old(shards)[i].buffers[old(shards)[i].order[at]])
      ensures pool == old(pool) || pool == old(pool) + [old(shards)[i].buffers[old(shards)[i].order[at]].data]
    {
      assert ShardOk(shards[i]);
      RemovedOk(shards[i], at);
      var key := shards[i].order[at];
      var b, s := shards[i].buffers[key], Removed(shards[i], at);
      Dropped(shards, pool, i, key, s);
      hide BooksOk, Unowned, Owns;
      Replace(i, s, used - Size(b));
      Recycle(b.data);
    }

    method EvictOldest(i: nat)
      requires Valid() && i < SHARDS && shards[i].order != []
      modifies this`shards, this`used, this`pool
      ensures Valid() && old(shards)[i].order[0] in old(shards)[i].buffers
      ensures shards == old(shards)[i := Evicted(old(shards)[i])]
      ensures used == old(used) - Size(old(shards)[i].buffers[old(shards)[i].order[0]])
    {
      ghost var s := shards[i];
      RemoveAt(i, 0);
      RemovedFirst(s);
    }

    lemma OneReplaced(was: seq<Shard>, i: nat, s: Shard, now: seq<Shard>)
      requires i < |was| && AllGenuine(i, s) && forall j :: 0 <= j < |was| ==> AllGenuine(j, was[j])
      requires now == was[i := s]
      ensures forall j :: 0 <= j < |now| ==> AllGenuine(j, now[j])
    {
      hide AllGenuine;
    }

    lemma AddedGenuine(i: nat, s: Shard, key: Key, b: RaBuffer)
      requires AllGenuine(i, s) && Genuine(i, key, b.start, b.end, b.data)
      ensures AllGenuine(i, Added(s, key, b))
    {
      hide Genuine;
    }

    method Insert(i: nat, key: Key, b: RaBuffer)
      requires Valid() && i < SHARDS && key !in shards[i].buffers && Unowned(b.data, shards, pool)
      requires Genuine(i, key, b.start, b.end, b.data)
      modifies this`shards, this`used
      ensures Valid() && shards == old(shards)[i := Added(old(shards)[i], key, b)] && used == old(used) + Size(b)
    {
      BooksMore(shards, used, pool, i, key, b);
      assert |shards| == SHARDS;
      AddedGenuine(i, shards[i], key, b);
      OneReplaced(shards, i, Added(shards[i], key, b), shards[i := Added(shards[i], key, b)]);
      hide BooksOk, Genuine, AllGenuine, Added;
      shards := shards[i := Added(shards[i], key, b)];
      used := used + Size(b);
    }

    /** Takes out the chunk under a key, if there is one. */
    method Overwrite(i: nat, key: Key)
      requires Valid() && i < SHARDS
      modifies this`shards, this`used, this`pool
      ensures Valid() && |shards| == |old(shards)| == SHARDS && shards == old(shards)[i := shards[i]]
      ensures shards[i].order == Others(old(shards)[i].order, key) && shards[i].buffers == old(shards)[i].buffers - {key}
      ensures pool == old(pool) || (key in old(shards)[i].buffers && pool == old(pool) + [old(shards)[i].buffers[key].data])
    {
      InOrder(i);
      var at := IndexOf(shards[i].order, key);
      RemovedIsOthers(shards[i], key, at);
      hide Valid, ShardOk, Removed;
      if at < |shards[i].order| {
        RemoveAt(i, at);
      }
    }

    /** Evicts from one shard, oldest first, while over budget; the last chunk stays. */
    method EvictWhileOver(i: nat)
      requires Valid() && i < SHARDS && shards[i].order != []
      modifies this`shards, this`used, this`pool
      ensures Valid() && |shards| == |old(shards)|
      ensures forall j :: 0 <= j < |shards| && j != i ==> shards[j] == old(shards)[j]
      ensures exists n :: Stopped(old(shards)[i], shards[i], n, used, budget)
    {
      ghost var was, s, n := shards, shards[i], 0;
      assert |shards| == SHARDS;
      NoneTrimmed(s);
      assert OnlyShard(was, shards, i);
      hide Valid, Trimmed, OnlyShard, Evicted;
      while used > budget && |shards[i].order| > 1
        invariant Valid() && |shards| == SHARDS && OnlyShard(was, shards, i)
        invariant Trimmed(s, shards[i], n) && shards[i].order != []
        invariant n > 0 ==> n <= |s.order| && s.order[n - 1] in s.buffers && used + Size(s.buffers[s.order[n - 1]]) > budget
        decreases |shards[i].order|
      {
        ghost var before := shards;
        EvictOldest(i);
        OneTrimmed(s, before[i], n);
        StillOnly(was, before, shards, i);
        n := n + 1;
      }
      OthersSame(was, shards, i);
      assert Stopped(s, shards[i], n, used, budget);
    }

    /**
      Caches a chunk: the newest of its shard, in place of an older one under its key, with the
      oldest chunks of the shard evicted while over budget. Returns whether the global eviction is due.
    */
    method Put(p: Path, start: nat, end: int, d: bytes, now: int) returns (evict: bool)
      requires Valid() && start <= end + 1 && d == Slice(p, start, end)
      modifies this`shards, this`used, this`pool, set a | a in pool
      ensures Valid() && |shards| == |old(shards)| && ShardOf(p) < |shards|
      ensures forall j :: 0 <= j < |shards| && j != ShardOf(p) ==> shards[j] == old(shards)[j]
      ensures Stored(old(shards)[ShardOf(p)], shards[ShardOf(p)], ChunkKey(p, start, chunkSize), start, end, now,
                     if p == activePath then session else 0, d, used, budget)
      ensures evict == (used > budget)
    {
      hide Valid, Stored, ChunkKey, Slice;
      var sess := if p == activePath then session else 0;
      evict := PutAs(p, start, end, d, now, sess);
    }

    method PutAs(p: Path, start: nat, end: int, d: bytes, now: int, sess: int) returns (evict: bool)
      requires Valid() && start <= end + 1 && d == Slice(p, start, end)
      modifies this`shards, this`used, this`pool, set a | a in pool
      ensures Valid() && |shards| == |old(shards)| && ShardOf(p) < |shards|
      ensures forall j :: 0 <= j < |shards| && j != ShardOf(p) ==> shards[j] == old(shards)[j]
      ensures Stored(old(shards)[ShardOf(p)], shards[ShardOf(p)], ChunkKey(p, start, chunkSize), start, end, now, sess, d, used, budget)
      ensures evict == (used > budget)
    {
      var i, key := ShardOf(p), ChunkKey(p, start, chunkSize);
      PathOfKey(p, start, chunkSize);
      assert |shards| == SHARDS && chunkSize > 0;
      var data := TakeBuffer(|d|);
      Fill(data, d);
      assert Genuine(i, key, start, end, data);
      hide Valid, Genuine, ChunkKey, PathOf, Unowned, Stopped, Stored;
      evict := StoreAndEvict(i, key, RaBuffer(start, end, data, now, sess));
    }

    method StoreAndEvict(i: nat, key: Key, b: RaBuffer) returns (evict: bool)
      requires Valid() && i < SHARDS && Unowned(b.data, shards, pool) && Genuine(i, key, b.start, b.end, b.data)
      modifies this`shards, this`used, this`pool
      ensures Valid() && |shards| == |old(shards)|
      ensures forall j :: 0 <= j < |shards| && j != i ==> shards[j] == old(shards)[j]
      ensures Stored(old(shards)[i], shards[i], key, b.start, b.end, b.lastAccess, b.session, b.data[..], used, budget)
      ensures evict == (used > budget)
    {
      hide Valid, Genuine, Unowned, Stopped, Stored, Promoted, ShardOk;
      InOrder(i);
      Store(i, key, b);
      ghost var s1 := shards[i];
      InOrder(i);
      EvictWhileOver(i);
      ghost var n :| Stopped(s1, shards[i], n, used, budget);
      StoredFrom(old(shards)[i], s1, shards[i], key, b, n, used, budget);
      evict := used > budget;
      InOrder(i);
      assert !(used > budget && |shards[i].order| == 0);                                   // never logged
      assert !(|shards[i].order| > 100 && |shards[i].order| > |shards[i].buffers| * 2);    // never compacted
    }

    lemma Sized()
      requires Valid()
      ensures |shards| == SHARDS
    {
    }

    lemma InOrder(i: nat)
      requires Valid() && i < SHARDS
      ensures |shards| == SHARDS && ShardOk(shards[i]) && NoDup(shards[i].order) && AllGenuine(i, shards[i])
      ensures |shards[i].order| == |shards[i].buffers|
      ensures !(|shards[i].order| > 100 && |shards[i].order| > |shards[i].buffers| * 2)
    {
      assert ShardOk(shards[i]);
      NeverCompacts(shards[i]);
    }

    method Store(i: nat, key: Key, b: RaBuffer)
      requires Valid() && i < SHARDS && Unowned(b.data, shards, pool) && Genuine(i, key, b.start, b.end, b.data)
      modifies this`shards, this`used, this`pool
      ensures Valid() && |shards| == |old(shards)|
      ensures forall j :: 0 <= j < |shards| && j != i ==> shards[j] == old(shards)[j]
      ensures shards[i].order == Promoted(old(shards)[i].order, key)
      ensures shards[i].buffers == (old(shards)[i].buffers - {key})[key := b]
    {
      ghost var was, wasPool := shards, pool;
      Overwrite(i, key);
      StillUnowned(b.data, was, shards, wasPool, pool, i, key);
      Insert(i, key, b);
    }

    // ---------- eviction ----------

    /** Removes the chunks whose key begins with the path and a colon, from every shard. Buffers are not recycled. */
    method EvictPath(p: Path)
      requires Valid()
      modifies this`shards, this`used
      ensures Valid() && |shards| == |old(shards)|
      ensures forall j :: 0 <= j < |shards| ==> Without(old(shards)[j], shards[j], ChunksOf(old(shards)[j], p))
    {
      Sized();
      ghost var was := shards;
      for j := 0 to SHARDS
        invariant Valid() && Cleared(was, shards, p, j)
      {
        hide Valid, Cleared;
        ghost var before := shards;
        SweepPath(j, p);
        ClearedNext(was, before, shards, p, j);
      }
    }

    method SweepPath(j: nat, p: Path)
      requires Valid() && j < SHARDS
      modifies this`shards, this`used
      ensures Valid() && |shards| == |old(shards)| == SHARDS && Without(old(shards)[j], shards[j], ChunksOf(old(shards)[j], p))
      ensures forall k :: 0 <= k < SHARDS && k != j ==> shards[k] == old(shards)[k]
    {
      InOrder(j);
      var s, freed := Swept(shards[j], p);
      hide ShardOk, Valid;
      Replace(j, s, used - freed);
    }

    /** Takes every stale chunk out of one shard; their buffers go to the pool while there is room. */
    method EvictShard(i: nat, path: Path, sess: int, now: int)
      requires Valid() && i < SHARDS
      modifies this`shards, this`used, this`pool
      ensures Valid() && |shards| == |old(shards)| == SHARDS && OnlyShard(old(shards), shards, i)
      ensures Without(old(shards)[i], shards[i], Stale(old(shards)[i], path, sess, now))
    {
      InOrder(i);
      ghost var was, s, n := shards, shards[i], 0;
      ghost var stale := Stale(s, path, sess, now);
      SweepBegins(s, stale);
      assert OnlyShard(was, shards, i);
      StaleCached(s, path, sess, now);
      var at := 0;
      hide Valid, ShardOk, Sweeping, Stale, KeepsChunk, Removed, Without, OnlyShard;
      while at < |shards[i].order|
        invariant Valid() && |shards| == SHARDS && OnlyShard(was, shards, i)
        invariant Sweeping(s, shards[i], stale, n, at)
        decreases |s.order| - n
      {
        ghost var before := shards;
        SweepsOn(s, before[i], stale, n, at);
        StaleMeans(s, path, sess, now, before[i].order[at]);
        var kept := Visit(i, at, path, sess, now);
        StillOnly(was, before, shards, i);
        at := if kept then at + 1 else at;
        n := n + 1;
      }
      SweepEnds(s, shards[i], stale, n, at);
    }

    /** One chunk of the sweep: kept, or out. */
    method Visit(i: nat, at: nat, path: Path, sess: int, now: int) returns (kept: bool)
      requires Valid() && i < |shards| == SHARDS && at < |shards[i].order| && shards[i].order[at] in shards[i].buffers
      modifies this`shards, this`used, this`pool
      ensures Valid()
      ensures kept == KeepsChunk(old(shards)[i].order[at], old(shards)[i].buffers[old(shards)[i].order[at]], path, sess, now)
      ensures shards == old(shards)[i := shards[i]]
      ensures shards[i] == if kept then old(shards)[i] else Removed(old(shards)[i], at)
    {
      hide Valid, KeepsChunk, Removed;
      var key := shards[i].order[at];
      kept := KeepsChunk(key, shards[i].buffers[key], path, sess, now);
      if !kept {
        RemoveAt(i, at);
      }
    }

    /** The global eviction: every shard whose lock is free, or the first one if none is. */
    method TriggerGlobalEviction(path: Path, sess: int, now: int, busy: set<nat>)
      requires Valid()
      modifies this`shards, this`used, this`pool
      ensures Valid() && EvictedAll(old(shards), shards, path, sess, now, busy)
    {
      Sized();
      CountAll(busy, SHARDS);
      hide Valid, Without, Stale, Purged, OnlyShard, AllBusy, CountBusy;
      var skipped := EvictFreeShards(path, sess, now, busy);
      if skipped == SHARDS {
        ghost var before := shards;
        EvictShard(0, path, sess, now);
        PurgedFirst(old(shards), before, shards, path, sess, now, busy);
      }
    }

    /** Returns how many shards were busy. */
    method EvictFreeShards(path: Path, sess: int, now: int, busy: set<nat>) returns (skipped: nat)
      requires Valid()
      modifies this`shards, this`used, this`pool
      ensures Valid() && |shards| == |old(shards)| == SHARDS && skipped == CountBusy(busy, SHARDS)
      ensures Purged(old(shards), shards, path, sess, now, busy, SHARDS)
    {
      hide Valid, Without, Stale, Purged, OnlyShard, CountBusy;
      Sized();
      ghost var was := shards;
      NotPurged(was, path, sess, now, busy);
      CountNone(busy);
      skipped := 0;
      for i := 0 to SHARDS
        invariant Valid() && |shards| == SHARDS && skipped == CountBusy(busy, i)
        invariant Purged(was, shards, path, sess, now, busy, i)
      {
        CountNext(busy, i);
        var free := EvictIfFree(i, path, sess, now, busy, was);
        skipped := if free then skipped else skipped + 1;
      }
    }

    method EvictIfFree(i: nat, path: Path, sess: int, now: int, busy: set<nat>, ghost was: seq<Shard>) returns (free: bool)
      requires Valid() && i < |shards| == SHARDS && Purged(was, shards, path, sess, now, busy, i)
      modifies this`shards, this`used, this`pool
      ensures Valid() && |shards| == SHARDS && Purged(was, shards, path, sess, now, busy, i + 1)
      ensures free == (i !in busy)
    {
      hide Valid, Without, Stale, Purged, OnlyShard;
      free := i !in busy;
      if free {
        ghost var before := shards;
        EvictShard(i, path, sess, now);
        PurgedNext(was, before, shards, path, sess, now, busy, i);
      } else {
        PurgedSkip(was, shards, path, sess, now, busy, i);
      }
    }
  }

  ghost predicate AllBusy(busy: set<nat>, i: nat) {
    forall k :: 0 <= k < i ==> k in busy
  }

  /** How many of the first `i` shards are busy. */
  ghost function CountBusy(busy: set<nat>, i: nat): nat {
    |set k | k in busy && k < i|
  }

  lemma CountNone(busy: set<nat>)
    ensures CountBusy(busy, 0) == 0
  {
    assert (set k | k in busy && k < 0) == {};
  }

  lemma CountNext(busy: set<nat>, i: nat)
    ensures CountBusy(busy, i + 1) == CountBusy(busy, i) + if i in busy then 1 else 0
  {
    assert (set k | k in busy && k < i + 1) == (set k | k in busy && k < i) + if i in busy then {i} else {};
  }

  lemma {:induction false} CountAll(busy: set<nat>, i: nat)
    ensures CountBusy(busy, i) <= i && (CountBusy(busy, i) == i <==> AllBusy(busy, i))
  {
    if i == 0 {
      CountNone(busy);
    } else {
      CountAll(busy, i - 1);
      CountNext(busy, i - 1);
    }
  }

  /** The first `i` shards, where free, are without stale chunks; the others as they were. */
  ghost predicate Purged(was: seq<Shard>, shards: seq<Shard>, path: Path, sess: int, now: int, busy: set<nat>, i: nat) {
    && |was| == |shards| == SHARDS
    && forall k :: 0 <= k < SHARDS ==>
         if k < i && k !in busy then Without(was[k], shards[k], Stale(was[k], path, sess, now)) else shards[k] == was[k]
  }

  lemma NotPurged(was: seq<Shard>, path: Path, sess: int, now: int, busy: set<nat>)
    requires |was| == SHARDS
    ensures Purged(was, was, path, sess, now, busy, 0)
  {
  }

  lemma PurgedFirst(was: seq<Shard>, before: seq<Shard>, shards: seq<Shard>, path: Path, sess: int, now: int,
                    busy: set<nat>)
    requires Purged(was, before, path, sess, now, busy, SHARDS) && AllBusy(busy, SHARDS) && |shards| == |before| == SHARDS
    requires OnlyShard(before, shards, 0)
    requires Without(before[0], shards[0], Stale(before[0], path, sess, now))
    ensures Purged(was, shards, path, sess, now, busy - {0}, SHARDS)
  {
    hide Without, Stale;
  }

  lemma PurgedNext(was: seq<Shard>, before: seq<Shard>, shards: seq<Shard>, path: Path, sess: int, now: int,
                   busy: set<nat>, i: nat)
    requires Purged(was, before, path, sess, now, busy, i) && i < SHARDS == |shards| == |before| && i !in busy
    requires OnlyShard(before, shards, i) && Without(before[i], shards[i], Stale(before[i], path, sess, now))
    ensures Purged(was, shards, path, sess, now, busy, i + 1)
  {
    hide Without, Stale;
  }

  lemma PurgedSkip(was: seq<Shard>, shards: seq<Shard>, path: Path, sess: int, now: int, busy: set<nat>, i: nat)
    requires Purged(was, shards, path, sess, now, busy, i) && i < SHARDS && i in busy
    ensures Purged(was, shards, path, sess, now, busy, i + 1)
  {
    hide Without, Stale;
  }

  /** In the middle of sweeping a shard: `n` keys of its order looked at, `at` of them kept. */
  ghost predicate Sweeping(s: Shard, s1: Shard, stale: set<Key>, n: nat, at: nat) {
    var keep := s.buffers.Keys - stale;
    && ShardOk(s) && n <= |s.order| && at == |Only(s.order[..n], keep)|
    && s1.order == Only(s.order[..n], keep) + s.order[n..]
    && s1.buffers == s.buffers - (stale * Elements(s.order[..n]))
  }

  /** Nothing but shard `i` has changed. */
  ghost predicate OnlyShard(was: seq<Shard>, shards: seq<Shard>, i: nat) {
    |was| == |shards| && forall k :: 0 <= k < |was| && k != i ==> shards[k] == was[k]
  }

  lemma StillOnly(was: seq<Shard>, before: seq<Shard>, shards: seq<Shard>, i: nat)
    requires OnlyShard(was, before, i) && i < |before| == |shards| && shards == before[i := shards[i]]
    ensures OnlyShard(was, shards, i)
  {
  }

  lemma OthersSame(was: seq<Shard>, shards: seq<Shard>, i: nat)
    requires OnlyShard(was, shards, i)
    ensures |was| == |shards| && forall k :: 0 <= k < |was| && k != i ==> shards[k] == was[k]
  {
  }

  lemma StaleMeans(s: Shard, path: Path, sess: int, now: int, key: Key)
    requires key in s.buffers
    ensures key in Stale(s, path, sess, now) <==> !KeepsChunk(key, s.buffers[key], path, sess, now)
  {
  }

  lemma StaleCached(s: Shard, path: Path, sess: int, now: int)
    ensures forall k :: k in Stale(s, path, sess, now) ==> k in s.buffers
  {
  }

  lemma SweepBegins(s: Shard, stale: set<Key>)
    requires ShardOk(s)
    ensures Sweeping(s, s, stale, 0, 0)
  {
    assert s.order[..0] == [] && Only([], s.buffers.Keys - stale) + s.order[0..] == s.order;
    assert s.buffers - (stale * Elements([])) == s.buffers;
  }

  lemma SweepsOn(s: Shard, s1: Shard, stale: set<Key>, n: nat, at: nat)
    requires Sweeping(s, s1, stale, n, at) && at < |s1.order|
    ensures n < |s.order| && s1.order[at] == s.order[n] && s.order[n] in s.buffers
    ensures s.order[n] in s1.buffers && s1.buffers[s.order[n]] == s.buffers[s.order[n]]
    ensures s.order[n] !in stale ==> Sweeping(s, s1, stale, n + 1, at + 1)
    ensures s.order[n] in stale ==> Sweeping(s, Removed(s1, at), stale, n + 1, at)
  {
    SweepAt(s, s1, stale, n, at);
    SweepStep(s.order, n, s.buffers.Keys - stale);
    SweepBuffers(s, stale, n);
    hide ShardOk, Only, Elements;
  }

  lemma SweepAt(s: Shard, s1: Shard, stale: set<Key>, n: nat, at: nat)
    requires Sweeping(s, s1, stale, n, at) && at < |s1.order|
    ensures n < |s.order| && s.order[n] in s.buffers
  {
    hide Only;
    assert n < |s.order| ==> s.order[n] in s.order;
  }

  lemma SweepBuffers(s: Shard, stale: set<Key>, n: nat)
    requires ShardOk(s) && n < |s.order|
    ensures var before, after := s.buffers - (stale * Elements(s.order[..n])), s.buffers - (stale * Elements(s.order[..n + 1]));
            && s.order[n] in before && s.order[n] in s.buffers && before[s.order[n]] == s.buffers[s.order[n]]
            && after == if s.order[n] in stale then before - {s.order[n]} else before
  {
    var key := s.order[n];
    assert key in s.order && s.order[..n + 1] == s.order[..n] + [key];
    assert key !in Elements(s.order[..n]);
    assert Elements(s.order[..n + 1]) == Elements(s.order[..n]) + {key};
    hide ShardOk, Elements;
  }

  lemma SweepEnds(s: Shard, s1: Shard, stale: set<Key>, n: nat, at: nat)
    requires Sweeping(s, s1, stale, n, at) && at >= |s1.order|
    requires forall k :: k in stale ==> k in s.buffers
    ensures Without(s, s1, stale)
  {
    assert n == |s.order| && s.order[..n] == s.order && s.order[n..] == [];
    assert stale * Elements(s.order) == stale;
  }

  /** The first `j` shards are without the path's chunks, the others as they were. */
  ghost predicate Cleared(was: seq<Shard>, now: seq<Shard>, p: Path, j: nat) {
    && |was| == |now| == SHARDS
    && (forall k :: 0 <= k < SHARDS && k < j ==> Without(was[k], now[k], ChunksOf(was[k], p)))
    && (forall k :: j <= k < SHARDS ==> now[k] == was[k])
  }

  lemma ClearedNext(was: seq<Shard>, before: seq<Shard>, now: seq<Shard>, p: Path, j: nat)
    requires Cleared(was, before, p, j) && j < SHARDS && |now| == SHARDS
    requires Without(before[j], now[j], ChunksOf(before[j], p))
    requires forall k :: 0 <= k < SHARDS && k != j ==> now[k] == before[k]
    ensures Cleared(was, now, p, j + 1)
  {
    hide Without, ChunksOf;
  }

  /** A shard without a path's chunks, and how many bytes that frees. */
  method Swept(s: Shard, p: Path) returns (s1: Shard, freed: int)
    requires ShardOk(s)
    ensures ShardOk(s1) && Without(s, s1, ChunksOf(s, p)) && Keeps(s, s1) && s1.total == s.total - freed
  {
    var gone := ChunksOf(s, p);
    ghost var keep := s.buffers.Keys - gone;
    var order := [];
    freed := 0;
    for n := 0 to |s.order|
      invariant order == Only(s.order[..n], keep)
      invariant forall k :: k in order ==> k in s.buffers
      invariant forall k :: k in s.order[..n] ==> k in s.buffers
      invariant freed == SumBy(s.order[..n], s.buffers) - SumBy(order, s.buffers)
    {
      var k := s.order[n];
      assert k in s.order && s.order[..n + 1] == s.order[..n] + [k];
      OnlyNext(s.order, n, keep);
      SumAppend(s.order[..n], [k], s.buffers);
      SumOne(k, s.buffers);
      if k in gone {
        freed := freed + Size(s.buffers[k]);
      } else {
        SumAppend(order, [k], s.buffers);
        order := order + [k];
      }
    }
    assert s.order[..|s.order|] == s.order;
    s1 := Shard(s.buffers - gone, order, s.total - freed);
    WithoutOk(s, s1, gone);
    SumSame(order, s.buffers, s1.buffers);
  }

  lemma RemovedIsOthers(s: Shard, key: Key, at: nat)
    requires ShardOk(s) && at <= |s.order|
    requires (forall j :: 0 <= j < at ==> s.order[j] != key) && (at < |s.order| ==> s.order[at] == key)
    ensures at < |s.order| ==> key in s.buffers && Removed(s, at).order == Others(s.order, key)
                               && Removed(s, at).buffers == s.buffers - {key}
    ensures at == |s.order| ==> Others(s.order, key) == s.order && s.buffers - {key} == s.buffers
  {
    OthersAt(s.order, key, at);
    assert at == |s.order| ==> key !in s.order && s.order[..at] + [] == s.order;
  }

  /** A shard after a chunk has been put: the chunk is there, last in the order, and all that is left is the newest. */
  ghost predicate Stored(s: Shard, s1: Shard, key: Key, start: nat, end: int, now: int, session: int, d: bytes,
                         used: int, budget: int)
    reads if key in s1.buffers then {s1.buffers[key].data} else {}
  {
    && key in s1.buffers && s1.buffers[key].start == start && s1.buffers[key].end == end && s1.buffers[key].data[..] == d
    && s1.buffers[key].lastAccess == now && s1.buffers[key].session == session
    && s1.order != [] && s1.order[|s1.order| - 1] == key
    && (used <= budget || s1.order == [key])
    && exists n :: StoredAfter(s, s1, key, s1.buffers[key], n, used, budget)
  }

  /** The shard with the chunk in it, after evicting `n` others. */
  ghost predicate StoredAfter(s: Shard, s1: Shard, key: Key, b: RaBuffer, n: nat, used: int, budget: int) {
    Stopped(Shard((s.buffers - {key})[key := b], Promoted(s.order, key), 0), s1, n, used, budget)
  }

  lemma StillUnowned(a: array<byte>, shards: seq<Shard>, shards1: seq<Shard>, pool: seq<array<byte>>, pool1: seq<array<byte>>,
                     i: nat, key: Key)
    requires Unowned(a, shards, pool) && |shards1| == |shards| && i < |shards| && Shrinks(shards[i], shards1[i])
    requires forall j :: 0 <= j < |shards| && j != i ==> shards1[j] == shards[j]
    requires pool1 == pool || (key in shards[i].buffers && pool1 == pool + [shards[i].buffers[key].data])
    ensures Unowned(a, shards1, pool1)
  {
  }

  lemma StoredFrom(s: Shard, mid: Shard, s1: Shard, key: Key, b: RaBuffer, n: nat, used: int, budget: int)
    requires NoDup(mid.order) && mid.order == Promoted(s.order, key) && mid.buffers == (s.buffers - {key})[key := b]
    requires Stopped(mid, s1, n, used, budget)
    ensures Stored(s, s1, key, b.start, b.end, b.lastAccess, b.session, b.data[..], used, budget) && s1.order != []
  {
    var last := |mid.order| - 1;
    assert mid.order[last] == key && s1.order[|s1.order| - 1] == mid.order[last];
    assert key !in mid.order[..n];
    assert StoredAfter(s, s1, key, b, n, used, budget);
  }

  /** A shard after a read that looked under two keys. */
  function Marked(s: Shard, k1: Key, k2: Key, off: int, end: int, now: int): Shard {
    if k1 in s.buffers && s.buffers[k1].start <= off <= s.buffers[k1].end then
      var s1 := Touched(s, k1, now);
      if end > s.buffers[k1].end && k2 in s1.buffers && s1.buffers[k2].start == s.buffers[k1].end + 1 && s1.buffers[k2].end >= end
      then Touched(s1, k2, now) else s1
    else s
  }

  method Mark(s: Shard, k1: Key, k2: Key, off: int, end: int, now: int) returns (s1: Shard)
    ensures s1 == Marked(s, k1, k2, off, end, now)
  {
    s1 := s;
    if k1 in s.buffers && s.buffers[k1].start <= off <= s.buffers[k1].end {
      s1 := Touched(s, k1, now);
      if end > s.buffers[k1].end && k2 in s1.buffers
         && s1.buffers[k2].start == s.buffers[k1].end + 1 && s1.buffers[k2].end >= end {
        s1 := Touched(s1, k2, now);
      }
    }
  }

  lemma MarkedOk(s: Shard, k1: Key, k2: Key, off: int, end: int, now: int)
    requires ShardOk(s)
    ensures var s1 := Marked(s, k1, k2, off, end, now); ShardOk(s1) && Keeps(s, s1) && s1.total == s.total
  {
    KeepsItself(s);
    if k1 in s.buffers {
      var s1 := Touched(s, k1, now);
      TouchedOk(s, k1, now);
      TouchedKeeps(s, k1, now);
      hide ShardOk, Keeps, Touched;
      if k2 in s1.buffers {
        TouchedOk(s1, k2, now);
        TouchedKeeps(s1, k2, now);
        KeepsOn(s, s1, Touched(s1, k2, now));
      }
    }
  }

  lemma KeepsItself(s: Shard)
    ensures Keeps(s, s)
  {
  }

  lemma TouchedKeeps(s: Shard, key: Key, now: int)
    requires key in s.buffers
    ensures Keeps(s, Touched(s, key, now)) && Touched(s, key, now).total == s.total
  {
  }

  lemma KeepsOn(s: Shard, s1: Shard, s2: Shard)
    requires Keeps(s, s1) && Keeps(s1, s2)
    ensures Keeps(s, s2)
  {
  }

  /** It has the same chunks in the same order; only times of last use have changed, and only to now. */
  /** The read from `off` to `end` takes bytes from the chunk: the first, or the second when the first ends too early. */
  ghost predicate Serves(s: Shard, k1: Key, k2: Key, off: int, end: int, k: Key) {
    && k1 in s.buffers && s.buffers[k1].start <= off <= s.buffers[k1].end
    && (k == k1 || (k == k2 && k2 in s.buffers && end > s.buffers[k1].end
                    && s.buffers[k2].start == s.buffers[k1].end + 1 && s.buffers[k2].end >= end))
  }

  /** Marking sets the time of last use of exactly the chunks a read takes bytes from, and changes nothing else. */
  lemma MarkingChangesTimes(s: Shard, k1: Key, k2: Key, off: int, end: int, now: int)
    ensures var s1 := Marked(s, k1, k2, off, end, now);
            && s1.order == s.order && s1.total == s.total && s1.buffers.Keys == s.buffers.Keys
            && forall k :: k in s.buffers ==>
                 s1.buffers[k] == if Serves(s, k1, k2, off, end, k) then s.buffers[k].(lastAccess := now) else s.buffers[k]
  {
  }

  // ---------- putting and evicting together ----------

  /**
    Which chunks a global eviction leaves in a shard it reaches: of the active path, and of paths that go on from it with
    a colon, those used within sixty seconds; of others, those of the active session used within two minutes.
  */
  lemma EvictionKeeps(s: Shard, s1: Shard, path: Path, sess: int, now: int, q: Path, off: nat, chunkSize: nat)
    requires chunkSize > 0 && Without(s, s1, Stale(s, path, sess, now)) && ChunkKey(q, off, chunkSize) in s.buffers
    ensures var key := ChunkKey(q, off, chunkSize);
            var b := s.buffers[key];
            key in s1.buffers <==>
              if q == path || path + [0x3a] <= q then now - b.lastAccess <= 60_000_000_000
              else b.session == sess && now - b.lastAccess <= 120_000_000_000
  {
    PrefixTakes(path, q, off, chunkSize);
    StaleMeans(s, path, sess, now, ChunkKey(q, off, chunkSize));
    hide Stale, OfPath, ChunkKey;
  }

  /** Evicting a path leaves exactly the chunks of other paths that do not go on from it with a colon. */
  lemma PathEvictionKeeps(s: Shard, s1: Shard, p: Path, q: Path, off: nat, chunkSize: nat)
    requires chunkSize > 0 && Without(s, s1, ChunksOf(s, p)) && ChunkKey(q, off, chunkSize) in s.buffers
    ensures ChunkKey(q, off, chunkSize) in s1.buffers <==> q != p && !(p + [0x3a] <= q)
  {
    PrefixTakes(p, q, off, chunkSize);
    hide OfPath, ChunkKey;
  }

  /** The shard is one the global eviction reaches: its lock is free, or it is the first and no lock is. */
  ghost predicate Reached(busy: set<nat>, i: nat) {
    i !in busy || (i == 0 && AllBusy(busy, SHARDS))
  }

  /** The shards before and after a global eviction. */
  ghost predicate EvictedAll(was: seq<Shard>, shards: seq<Shard>, path: Path, sess: int, now: int, busy: set<nat>) {
    Purged(was, shards, path, sess, now, if AllBusy(busy, SHARDS) then busy - {0} else busy, SHARDS)
  }

  lemma EvictedAt(was: seq<Shard>, shards: seq<Shard>, path: Path, sess: int, now: int, busy: set<nat>, i: nat)
    requires EvictedAll(was, shards, path, sess, now, busy) && i < SHARDS
    ensures |was| == |shards| == SHARDS
    ensures if Reached(busy, i) then Without(was[i], shards[i], Stale(was[i], path, sess, now)) else shards[i] == was[i]
  {
    hide Without, Stale;
  }

  /** A chunk of the active path put at `putAt` survives an eviction for that path up to sixty seconds later, and no longer. */
  lemma ActiveChunkSurvives(s0: Shard, was: seq<Shard>, shards: seq<Shard>, i: nat, p: Path, start: nat, end: int, d: bytes,
                            putAt: int, session: int, used: int, budget: int, now: int, busy: set<nat>, chunkSize: nat)
    requires chunkSize > 0 && i < |was| && EvictedAll(was, shards, p, session, now, busy) && Reached(busy, i)
    requires Stored(s0, was[i], ChunkKey(p, start, chunkSize), start, end, putAt, session, d, used, budget)
    ensures i < |shards| && (ChunkKey(p, start, chunkSize) in shards[i].buffers <==> now - putAt <= 60_000_000_000)
  {
    EvictedAt(was, shards, p, session, now, busy, i);
    EvictionKeeps(was[i], shards[i], p, session, now, p, start, chunkSize);
    hide Purged, Without, Stale, AllBusy;
  }

  /** A chunk put for another path, and so without a session, does not survive an eviction for a session. */
  lemma OtherChunkLeaves(s0: Shard, was: seq<Shard>, shards: seq<Shard>, i: nat, p: Path, q: Path, start: nat, end: int, d: bytes,
                         putAt: int, session: int, used: int, budget: int, now: int, busy: set<nat>, chunkSize: nat)
    requires chunkSize > 0 && i < |was| && EvictedAll(was, shards, p, session, now, busy) && Reached(busy, i)
    requires Stored(s0, was[i], ChunkKey(q, start, chunkSize), start, end, putAt, 0, d, used, budget)
    requires session != 0 && q != p && !(p + [0x3a] <= q)
    ensures i < |shards| && ChunkKey(q, start, chunkSize) !in shards[i].buffers
  {
    EvictedAt(was, shards, p, session, now, busy, i);
    EvictionKeeps(was[i], shards[i], p, session, now, q, start, chunkSize);
    hide Purged, Without, Stale, AllBusy;
  }

  /** Shard `s1` is `s` without its `n` oldest chunks. */
  ghost predicate Trimmed(s: Shard, s1: Shard, n: nat) {
    n <= |s.order| && s1.order == s.order[n..] && s1.buffers == s.buffers - Elements(s.order[..n])
  }

  /** Eviction stops as soon as it may: within budget or at the last chunk, and not before it had to go on. */
  ghost predicate Stopped(s: Shard, s1: Shard, n: nat, used: int, budget: int) {
    && Trimmed(s, s1, n) && s1.order != []
    && (used <= budget || |s1.order| == 1)
    && (n > 0 ==> n <= |s.order| && s.order[n - 1] in s.buffers && used + Size(s.buffers[s.order[n - 1]]) > budget)
  }

  lemma NoneTrimmed(s: Shard)
    ensures Trimmed(s, s, 0)
  {
    assert s.order[0..] == s.order && s.buffers - Elements(s.order[..0]) == s.buffers;
  }

  lemma OneTrimmed(s: Shard, s1: Shard, n: nat)
    requires Trimmed(s, s1, n) && s1.order != [] && s1.order[0] in s1.buffers
    ensures n < |s.order| && s.order[n] == s1.order[0] && s.order[n] in s.buffers
    ensures s1.buffers[s1.order[0]] == s.buffers[s.order[n]]
    ensures Trimmed(s, Evicted(s1), n + 1) && |Evicted(s1).order| == |s1.order| - 1
  {
    assert s.order[..n + 1] == s.order[..n] + [s.order[n]];
  }

  /** Where a key first stands, or the length if it does not. */
  method IndexOf(order: seq<Key>, key: Key) returns (at: nat)
    ensures at <= |order| && (at < |order| ==> order[at] == key) && forall k :: 0 <= k < at ==> order[k] != key
    ensures at == |order| <==> key !in order
  {
    at := 0;
    while at < |order| && order[at] != key
      invariant at <= |order| && forall k :: 0 <= k < at ==> order[k] != key
    {
      at := at + 1;
    }
  }

  /** As many bytes as there is room for. */
  method Copy(dest: array<byte>, src: bytes) returns (n: nat)
    modifies dest
    ensures n == Min(dest.Length, |src|) && dest[..n] == src[..n] && dest[n..] == old(dest[n..])
  {
    n := Min(dest.Length, |src|);
    for k := 0 to n
      invariant forall m :: 0 <= m < k ==> dest[m] == src[m]
      invariant forall m :: k <= m < dest.Length ==> dest[m] == old(dest[m])
    {
      dest[k] := src[k];
    }
  }

  function Min(a: int, b: int): int {
    if a < b then a else b
  }

  lemma {:induction false} NothingTotal(shards: seq<Shard>)
    requires forall i :: 0 <= i < |shards| ==> shards[i] == Shard(map[], [], 0)
    ensures SumTotals(shards) == 0
  {
    if shards != [] {
      NothingTotal(shards[1..]);
    }
  }
}

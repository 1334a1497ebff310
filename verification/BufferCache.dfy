/** The buffer cache: a doubly linked ring of buffers, most recently released first.

    Buffers are numbered; number NBUF is the list head. Each method is one segment of the
    source under the cache lock, or one access by the process that holds a buffer's sleep
    lock. `ring` lists the buffers from head.next on, `stamp` says when each was last released
    for good, and `clock` counts such releases. */
module BufferCache {

  const NBUF: int := 30
  const HEAD: int := 30

  datatype Key = Key(dev: int, blockno: int)

  datatype Buf = Buf(key: Key, valid: bool, dirty: bool, refcnt: int, locked: bool, data: int)

  // ---------- the linked list ----------

  /** The node at position k of the ring; the head is at both ends. */
  function At(ring: seq<int>, k: int): (b: int) {
    if 0 <= k < |ring| then ring[k] else HEAD
  }

  predicate Joined(next: seq<int>, prev: seq<int>, a: int, b: int) {
    && 0 <= a < |next| && next[a] == b
    && 0 <= b < |prev| && prev[b] == a
  }

  predicate JoinedAt(next: seq<int>, prev: seq<int>, ring: seq<int>, k: int) {
    Joined(next, prev, At(ring, k), At(ring, k + 1))
  }

  ghost predicate Distinct(ring: seq<int>) {
    && (forall k {:trigger ring[k]} :: 0 <= k < |ring| ==> 0 <= ring[k] < NBUF)
    && forall j, k {:trigger ring[j], ring[k]} :: 0 <= j < k < |ring| ==> ring[j] != ring[k]
  }

  ghost predicate Linked(next: seq<int>, prev: seq<int>, ring: seq<int>) {
    && |next| == |prev| == NBUF + 1
    && Distinct(ring)
    && forall k {:trigger JoinedAt(next, prev, ring, k)} :: -1 <= k < |ring| ==> JoinedAt(next, prev, ring, k)
  }

  function Remove(ring: seq<int>, k: int): (r: seq<int>)
    requires 0 <= k < |ring|
  {
    ring[..k] + ring[k + 1..]
  }

  /** Unlinking the node at position k. */
  lemma UnlinkOk(next: seq<int>, prev: seq<int>, ring: seq<int>, k: int, next': seq<int>, prev': seq<int>)
    requires Linked(next, prev, ring) && 0 <= k < |ring|
    requires var b := ring[k];
      && 0 <= next[b] <= NBUF && 0 <= prev[b] <= NBUF
      && prev' == prev[next[b] := prev[b]] && next' == next[prev[b] := next[b]]
    ensures Linked(next', prev', Remove(ring, k)) && ring[k] !in Remove(ring, k)
  {
    var r := Remove(ring, k);
    assert JoinedAt(next, prev, ring, k) && JoinedAt(next, prev, ring, k - 1);
    forall j | -1 <= j < |r|
      ensures JoinedAt(next', prev', r, j)
    {
      UnlinkAt(next, prev, ring, k, next', prev', j);
    }
  }

  lemma UnlinkAt(next: seq<int>, prev: seq<int>, ring: seq<int>, k: int, next': seq<int>, prev': seq<int>, j: int)
    requires Linked(next, prev, ring) && 0 <= k < |ring| && -1 <= j < |ring| - 1
    requires JoinedAt(next, prev, ring, k) && JoinedAt(next, prev, ring, k - 1)
    requires prev' == prev[At(ring, k + 1) := At(ring, k - 1)] && next' == next[At(ring, k - 1) := At(ring, k + 1)]
    ensures JoinedAt(next', prev', Remove(ring, k), j)
  {
    if j < k - 1 {
      assert JoinedAt(next, prev, ring, j);
    } else if j >= k {
      assert JoinedAt(next, prev, ring, j + 1);
    }
  }

  /** Linking a node in after the head. */
  lemma PushOk(next: seq<int>, prev: seq<int>, ring: seq<int>, b: int, next': seq<int>, prev': seq<int>)
    requires Linked(next, prev, ring) && 0 <= b < NBUF && b !in ring
    requires 0 <= next[HEAD] <= NBUF
    requires next' == next[b := next[HEAD]][HEAD := b] && prev' == prev[b := HEAD][next[HEAD] := b]
    ensures Linked(next', prev', [b] + ring)
  {
    assert JoinedAt(next, prev, ring, -1);
    var r := [b] + ring;
    forall j | -1 <= j < |r|
      ensures JoinedAt(next', prev', r, j)
    {
      if j > 0 {
        assert JoinedAt(next, prev, ring, j - 1);
      }
    }
  }

  // ---------- what the cache stands for ----------

  function OnDisk(disk: map<Key, int>, key: Key): (v: int) {
    if key in disk then disk[key] else 0
  }

  predicate Caches(bufs: seq<Buf>, i: int, key: Key) {
    0 <= i < |bufs| && bufs[i].valid && bufs[i].key == key
  }

  /** The contents of a block: those of the buffer that caches it, or else those on disk. */
  ghost function ValueOf(bufs: seq<Buf>, disk: map<Key, int>, key: Key): (v: int) {
    if exists i :: Caches(bufs, i, key) then var i :| Caches(bufs, i, key); bufs[i].data else OnDisk(disk, key)
  }

  predicate SameBlock(x: Buf, y: Buf) {
    x.key == y.key && x.key.dev != 0
  }

  /** No block of a real device has two buffers; the buffers start out naming block 0 of device 0. */
  ghost predicate Unique(bufs: seq<Buf>) {
    forall i, j {:trigger SameBlock(bufs[i], bufs[j])} :: 0 <= i < j < |bufs| ==> !SameBlock(bufs[i], bufs[j])
  }

  /** A valid buffer that nobody holds and that is not dirty reads like the disk. */
  predicate CleanAt(x: Buf, disk: map<Key, int>) {
    x.valid && !x.dirty && !x.locked ==> x.data == OnDisk(disk, x.key)
  }

  predicate RefsOk(x: Buf, waiting: int) {
    0 <= waiting && x.refcnt == waiting + (if x.locked then 1 else 0) && (x.dirty ==> x.valid)
  }

  lemma CachedValue(bufs: seq<Buf>, disk: map<Key, int>, i: int, key: Key)
    requires Unique(bufs) && Caches(bufs, i, key) && key.dev != 0
    ensures ValueOf(bufs, disk, key) == bufs[i].data
  {
    forall j | Caches(bufs, j, key)
      ensures j == i
    {
      assert j < i ==> !SameBlock(bufs[j], bufs[i]);
      assert i < j ==> !SameBlock(bufs[i], bufs[j]);
    }
  }

  predicate SameContents(x: Buf, y: Buf) {
    x.key == y.key && x.valid == y.valid && x.data == y.data
  }

  lemma SameValue(bufs: seq<Buf>, bufs': seq<Buf>, disk: map<Key, int>, key: Key)
    requires Unique(bufs) && Unique(bufs') && |bufs'| == |bufs| && key.dev != 0
    requires forall i :: 0 <= i < |bufs| ==> SameContents(bufs[i], bufs'[i])
    ensures ValueOf(bufs', disk, key) == ValueOf(bufs, disk, key)
  {
    if i :| Caches(bufs, i, key) {
      assert SameContents(bufs[i], bufs'[i]);
      CachedValue(bufs, disk, i, key);
      CachedValue(bufs', disk, i, key);
    } else {
      assert forall i :: Caches(bufs', i, key) ==> Caches(bufs, i, key);
    }
  }

  /** The contents of the other blocks when one buffer, or the disk under it, changes. */
  lemma OtherValue(bufs: seq<Buf>, disk: map<Key, int>, disk': map<Key, int>, b: int, x: Buf, key: Key)
    requires Unique(bufs) && 0 <= b < |bufs| && x.key == bufs[b].key && key.dev != 0 && key != x.key
    requires OnDisk(disk', key) == OnDisk(disk, key)
    ensures ValueOf(bufs[b := x], disk', key) == ValueOf(bufs, disk, key)
  {
    var bufs' := bufs[b := x];
    UniqueKept(bufs, b, x);
    if i :| Caches(bufs, i, key) {
      CachedValue(bufs, disk, i, key);
      CachedValue(bufs', disk', i, key);
    } else {
      assert forall i :: Caches(bufs', i, key) ==> Caches(bufs, i, key);
    }
  }

  lemma UniqueKept(bufs: seq<Buf>, b: int, x: Buf)
    requires Unique(bufs) && 0 <= b < |bufs|
    requires x.key == bufs[b].key || forall i :: 0 <= i < |bufs| ==> bufs[i].key != x.key
    ensures Unique(bufs[b := x])
  {
    var bufs' := bufs[b := x];
    forall i, j | 0 <= i < j < |bufs'|
      ensures !SameBlock(bufs'[i], bufs'[j])
    {
      assert !SameBlock(bufs[i], bufs[j]);
    }
  }

  /** Reusing a clean buffer changes the contents of no block. */
  lemma RecycleValue(bufs: seq<Buf>, disk: map<Key, int>, b: int, x: Buf, key: Key)
    requires Unique(bufs) && 0 <= b < |bufs| && !x.valid && CleanAt(bufs[b], disk) && !bufs[b].dirty && !bufs[b].locked
    requires key.dev != 0
    ensures ValueOf(bufs[b := x], disk, key) == ValueOf(bufs, disk, key)
  {
    var bufs' := bufs[b := x];
    if i :| Caches(bufs', i, key) {
      assert Caches(bufs, i, key);
      CachedValue(bufs, disk, i, key);
      forall j | Caches(bufs', j, key)
        ensures j == i
      {
        assert Caches(bufs, j, key);
        assert j < i ==> !SameBlock(bufs[j], bufs[i]);
        assert i < j ==> !SameBlock(bufs[i], bufs[j]);
      }
    } else if Caches(bufs, b, key) {
      CachedValue(bufs, disk, b, key);
    } else {
      assert forall i :: Caches(bufs, i, key) ==> Caches(bufs', i, key);
    }
  }

  ghost predicate Ordered(ring: seq<int>, stamp: seq<int>) {
    && |stamp| == NBUF
    && forall j, k {:trigger stamp[ring[j]], stamp[ring[k]]} ::
         0 <= j < k < |ring| && 0 <= ring[j] < NBUF && 0 <= ring[k] < NBUF ==> stamp[ring[j]] > stamp[ring[k]]
  }

  /** Moving the node at position k to the front, with a stamp above all others. */
  lemma MoveOrdered(ring: seq<int>, stamp: seq<int>, clock: int, k: int)
    requires Distinct(ring) && Ordered(ring, stamp) && 0 <= k < |ring|
    requires forall b :: 0 <= b < NBUF ==> stamp[b] < clock
    ensures var r := [ring[k]] + Remove(ring, k);
      Ordered(r, stamp[ring[k] := clock]) && forall b :: b in ring ==> b in r
  {
    var b, stamp' := ring[k], stamp[ring[k] := clock];
    var q := Remove(ring, k);
    var r := [b] + q;
    forall i, j | 0 <= i < j < |r| && 0 <= r[i] < NBUF && 0 <= r[j] < NBUF
      ensures stamp'[r[i]] > stamp'[r[j]]
    {
      var j0 := if j - 1 < k then j - 1 else j;
      assert r[j] == ring[j0] != b;
      if i > 0 {
        var i0 := if i - 1 < k then i - 1 else i;
        assert r[i] == ring[i0] != b;
        assert stamp[ring[i0]] > stamp[ring[j0]];
      }
    }
    forall x | x in ring
      ensures x in r
    {
      var i :| 0 <= i < |ring| && ring[i] == x;
      assert i < k ==> q[i] == x;
      assert i > k ==> q[i - 1] == x;
    }
  }

  // ---------- the operations ----------

  predicate Eligible(x: Buf) {
    x.refcnt == 0 && !x.dirty
  }

  class Cache {
    var next: seq<int>
    var prev: seq<int>
    var bufs: seq<Buf>
    var disk: map<Key, int>
    ghost var ring: seq<int>
    ghost var stamp: seq<int>
    ghost var clock: int
    /** Of each buffer, the references of processes that do not hold its lock. */
    ghost var waiting: seq<int>

    ghost predicate ListOk()
      reads this
    {
      && Linked(next, prev, ring) && Ordered(ring, stamp)
      && (forall b :: 0 <= b < NBUF ==> b in ring && stamp[b] < clock)
    }

    ghost predicate BufsOk()
      reads this
    {
      && |bufs| == |waiting| == NBUF && Unique(bufs)
      && (forall b {:trigger CleanAt(bufs[b], disk)} :: 0 <= b < NBUF ==> CleanAt(bufs[b], disk))
      && (forall b {:trigger RefsOk(bufs[b], waiting[b])} :: 0 <= b < NBUF ==> RefsOk(bufs[b], waiting[b]))
    }

    ghost predicate Valid()
      reads this
    {
      ListOk() && BufsOk()
    }

    /** The part of bget under the cache lock: the buffer of a block, with one more reference, or
        else the eligible buffer that was released longest ago, given to the block. */
    method Bget(key: Key) returns (b: int)
      requires Valid()
      modifies `bufs, `waiting
      ensures Valid() && (b == HEAD || 0 <= b < NBUF)
      ensures b == HEAD ==> bufs == old(bufs) && forall e :: 0 <= e < NBUF ==> bufs[e].key != key && !Eligible(bufs[e])
      ensures b != HEAD ==> bufs[b].key == key && waiting == old(waiting)[b := old(waiting)[b] + 1]
      ensures b != HEAD && old(bufs)[b].key == key ==>
        bufs == old(bufs)[b := old(bufs)[b].(refcnt := old(bufs)[b].refcnt + 1)]
      ensures b != HEAD && old(bufs)[b].key != key ==>
                && (forall e :: 0 <= e < NBUF ==> old(bufs)[e].key != key)
                && bufs == old(bufs)[b := old(bufs)[b].(key := key, valid := false, dirty := false, refcnt := 1)]
                && Eligible(old(bufs)[b]) && forall e :: 0 <= e < NBUF && Eligible(old(bufs)[e]) ==>
                    stamp[b] <= stamp[e]
      ensures forall k: Key {:trigger ValueOf(bufs, disk, k)} :: k.dev != 0 ==>
        ValueOf(bufs, disk, k) == ValueOf(old(bufs), disk, k)
    {
      var found := Find(key);
      if found != HEAD {
        Again(found);
        return found;
      }
      b := Oldest();
      if b != HEAD {
        Recycle(b, key);
      }
    }

    /** The first loop of bget: from the head forwards. */
    method Find(key: Key) returns (b: int)
      requires Valid()
      ensures b == HEAD || (0 <= b < NBUF && bufs[b].key == key)
      ensures b == HEAD ==> forall e :: 0 <= e < NBUF ==> bufs[e].key != key
    {
      assert JoinedAt(next, prev, ring, -1);
      b := next[HEAD];
      ghost var k := 0;
      while b != HEAD
        invariant 0 <= k <= |ring| && b == At(ring, k)
        invariant forall j :: 0 <= j < k ==> bufs[ring[j]].key != key
        decreases |ring| - k
      {
        if bufs[b].key == key {
          return;
        }
        assert JoinedAt(next, prev, ring, k);
        b := next[b];
        k := k + 1;
      }
      forall e | 0 <= e < NBUF
        ensures bufs[e].key != key
      {
        assert e in ring;
      }
    }

    /** The second loop of bget: from the head backwards. */
    method Oldest() returns (b: int)
      requires Valid()
      ensures b == HEAD || (0 <= b < NBUF && Eligible(bufs[b]))
      ensures b == HEAD ==> forall e :: 0 <= e < NBUF ==> !Eligible(bufs[e])
      ensures b != HEAD ==> forall e :: 0 <= e < NBUF && Eligible(bufs[e]) ==> stamp[b] <= stamp[e]
    {
      assert JoinedAt(next, prev, ring, |ring| - 1);
      b := prev[HEAD];
      ghost var k := |ring| - 1;
      while b != HEAD
        invariant -1 <= k < |ring| && b == At(ring, k)
        invariant forall j :: k < j < |ring| ==> !Eligible(bufs[ring[j]])
        decreases k
      {
        if Eligible(bufs[b]) {
          forall e | 0 <= e < NBUF && Eligible(bufs[e])
            ensures stamp[b] <= stamp[e]
          {
            assert e in ring;
            var j :| 0 <= j < |ring| && ring[j] == e;
            assert j < k ==> stamp[ring[j]] > stamp[ring[k]];
          }
          return;
        }
        assert JoinedAt(next, prev, ring, k - 1);
        b := prev[b];
        k := k - 1;
      }
      forall e | 0 <= e < NBUF
        ensures !Eligible(bufs[e])
      {
        assert e in ring;
      }
    }

    /** One buffer changes, keeping the invariant on buffers. */
    ghost predicate Fits(b: int, x: Buf, w: int)
      requires 0 <= b < NBUF && BufsOk()
      reads this
    {
      && (x.key == bufs[b].key || forall i :: 0 <= i < NBUF ==> bufs[i].key != x.key)
      && CleanAt(x, disk) && RefsOk(x, w)
    }

    method Replace(b: int, x: Buf, ghost w: int)
      requires Valid() && 0 <= b < NBUF && Fits(b, x, w)
      modifies `bufs, `waiting
      ensures Valid() && bufs == old(bufs)[b := x] && waiting == old(waiting)[b := w]
    {
      UniqueKept(bufs, b, x);
      bufs := bufs[b := x];
      waiting := waiting[b := w];
    }

    method Again(b: int)
      requires Valid() && 0 <= b < NBUF
      modifies `bufs, `waiting
      ensures Valid() && bufs == old(bufs)[b := old(bufs)[b].(refcnt := old(bufs)[b].refcnt + 1)]
      ensures waiting == old(waiting)[b := old(waiting)[b] + 1]
      ensures forall k: Key {:trigger ValueOf(bufs, disk, k)} :: k.dev != 0 ==>
        ValueOf(bufs, disk, k) == ValueOf(old(bufs), disk, k)
    {
      ghost var was := bufs;
      assert CleanAt(bufs[b], disk) && RefsOk(bufs[b], waiting[b]);
      Replace(b, bufs[b].(refcnt := bufs[b].refcnt + 1), waiting[b] + 1);
      forall k: Key | k.dev != 0
        ensures ValueOf(bufs, disk, k) == ValueOf(was, disk, k)
      {
        SameValue(was, bufs, disk, k);
      }
    }

    method Recycle(b: int, key: Key)
      requires Valid() && 0 <= b < NBUF && Eligible(bufs[b]) && forall e :: 0 <= e < NBUF ==> bufs[e].key != key
      modifies `bufs, `waiting
      ensures Valid() && bufs == old(bufs)[b := old(bufs)[b].(key := key, valid := false, dirty := false, refcnt := 1)]
      ensures waiting == old(waiting)[b := old(waiting)[b] + 1]
      ensures forall k: Key {:trigger ValueOf(bufs, disk, k)} :: k.dev != 0 ==>
        ValueOf(bufs, disk, k) == ValueOf(old(bufs), disk, k)
    {
      ghost var was := bufs;
      var x := bufs[b].(key := key, valid := false, dirty := false, refcnt := 1);
      assert CleanAt(bufs[b], disk) && RefsOk(bufs[b], waiting[b]);
      Replace(b, x, waiting[b] + 1);
      forall k: Key | k.dev != 0
        ensures ValueOf(bufs, disk, k) == ValueOf(was, disk, k)
      {
        RecycleValue(was, disk, b, x, k);
      }
    }

    /** acquiresleep, and the rest of bread: the process that gets the lock finds in the buffer
        the contents of its block. */
    method Bread(b: int)
      requires Valid() && 0 <= b < NBUF && !bufs[b].locked && waiting[b] > 0
      modifies `bufs, `waiting
      ensures Valid() && bufs[b].locked && bufs[b].valid && bufs[b].key == old(bufs)[b].key
      ensures waiting == old(waiting)[b := old(waiting)[b] - 1] && bufs == old(bufs)[b := bufs[b]]
      ensures bufs[b].key.dev != 0 ==> bufs[b].data == ValueOf(old(bufs), disk, bufs[b].key)
      ensures forall k: Key {:trigger ValueOf(bufs, disk, k)} :: k.dev != 0 ==>
        ValueOf(bufs, disk, k) == ValueOf(old(bufs), disk, k)
    {
      ghost var was := bufs;
      assert CleanAt(bufs[b], disk) && RefsOk(bufs[b], waiting[b]);
      var x := bufs[b].(locked := true);
      if !x.valid {
        x := x.(valid := true, data := OnDisk(disk, x.key));
      }
      Replace(b, x, waiting[b] - 1);
      forall k: Key | k.dev != 0
        ensures ValueOf(bufs, disk, k) == ValueOf(was, disk, k)
      {
        LoadValue(was, disk, b, x, k);
      }
      if x.key.dev != 0 {
        assert Caches(bufs, b, x.key);
        CachedValue(bufs, disk, b, x.key);
      }
    }

    /** The holder of a buffer changes its data. */
    method Modify(b: int, data: int)
      requires Valid() && 0 <= b < NBUF && bufs[b].locked && bufs[b].valid
      modifies `bufs, `waiting
      ensures Valid() && waiting == old(waiting) && bufs == old(bufs)[b := old(bufs)[b].(data := data)]
      ensures Written(old(bufs), disk, bufs, disk, bufs[b].key, data)
    {
      ghost var was := bufs;
      assert RefsOk(bufs[b], waiting[b]);
      var x := bufs[b].(data := data);
      Replace(b, x, waiting[b]);
      WrittenOne(was, disk, disk, b, x);
    }

    /** log_write marks the buffer dirty: it keeps its data in memory until the log installs it. */
    method MarkDirty(b: int)
      requires Valid() && 0 <= b < NBUF && bufs[b].locked && bufs[b].valid
      modifies `bufs, `waiting
      ensures Valid() && waiting == old(waiting) && bufs == old(bufs)[b := old(bufs)[b].(dirty := true)]
      ensures forall k: Key {:trigger ValueOf(bufs, disk, k)} :: k.dev != 0 ==>
        ValueOf(bufs, disk, k) == ValueOf(old(bufs), disk, k)
    {
      ghost var was := bufs;
      assert RefsOk(bufs[b], waiting[b]);
      Replace(b, bufs[b].(dirty := true), waiting[b]);
      forall k: Key | k.dev != 0
        ensures ValueOf(bufs, disk, k) == ValueOf(was, disk, k)
      {
        SameValue(was, bufs, disk, k);
      }
    }

    /** bwrite: the disk gets the buffer's data, and the buffer is clean. */
    method Bwrite(b: int)
      requires Valid() && 0 <= b < NBUF && bufs[b].locked && bufs[b].valid && bufs[b].key.dev != 0
      modifies `bufs, `waiting, `disk
      ensures Valid() && waiting == old(waiting) && bufs == old(bufs)[b := old(bufs)[b].(dirty := false)]
      ensures disk == old(disk)[bufs[b].key := bufs[b].data]
      ensures forall k: Key {:trigger ValueOf(bufs, disk, k)} :: k.dev != 0 ==>
        ValueOf(bufs, disk, k) == ValueOf(old(bufs), old(disk), k)
    {
      ghost var was, disk0 := bufs, disk;
      assert RefsOk(bufs[b], waiting[b]);
      var x := bufs[b].(dirty := false);
      Replace(b, x, waiting[b]);
      OnlyOwner(b);
      disk := disk[x.key := x.data];
      forall e | 0 <= e < NBUF
        ensures CleanAt(bufs[e], disk)
      {
        assert CleanAt(bufs[e], disk0);
      }
      forall k: Key | k.dev != 0
        ensures ValueOf(bufs, disk, k) == ValueOf(was, disk0, k)
      {
        if k == x.key {
          assert Caches(was, b, k) && Caches(bufs, b, k);
          CachedValue(was, disk0, b, k);
          CachedValue(bufs, disk, b, k);
        } else {
          OtherValue(was, disk0, disk, b, x, k);
        }
      }
    }

    lemma OnlyOwner(b: int)
      requires BufsOk() && 0 <= b < NBUF && bufs[b].key.dev != 0
      ensures forall e :: 0 <= e < NBUF && e != b ==> bufs[e].key != bufs[b].key
    {
      forall e | 0 <= e < NBUF && e != b
        ensures bufs[e].key != bufs[b].key
      {
        assert e < b ==> !SameBlock(bufs[e], bufs[b]);
        assert b < e ==> !SameBlock(bufs[b], bufs[e]);
      }
    }

    /** releasesleep: allowed once the data are on disk or the buffer is dirty. */
    method Unlock(b: int)
      requires Valid() && 0 <= b < NBUF && bufs[b].locked && (bufs[b].dirty ||
        (bufs[b].valid ==> bufs[b].data == OnDisk(disk, bufs[b].key)))
      modifies `bufs, `waiting
      ensures Valid() && bufs == old(bufs)[b := old(bufs)[b].(locked := false)] &&
        waiting == old(waiting)[b := old(waiting)[b] + 1]
      ensures forall k: Key {:trigger ValueOf(bufs, disk, k)} :: k.dev != 0 ==>
        ValueOf(bufs, disk, k) == ValueOf(old(bufs), disk, k)
    {
      ghost var was := bufs;
      assert RefsOk(bufs[b], waiting[b]);
      Replace(b, bufs[b].(locked := false), waiting[b] + 1);
      forall k: Key | k.dev != 0
        ensures ValueOf(bufs, disk, k) == ValueOf(was, disk, k)
      {
        SameValue(was, bufs, disk, k);
      }
    }

    /** The rest of brelse, under the cache lock: drops a reference, and moves the buffer to the
        front when it was the last. */
    method Unref(b: int)
      requires Valid() && 0 <= b < NBUF && waiting[b] > 0
      modifies this
      ensures Valid() && bufs == old(bufs)[b := old(bufs)[b].(refcnt := old(bufs)[b].refcnt - 1)]
      ensures waiting == old(waiting)[b := old(waiting)[b] - 1] && disk == old(disk)
      ensures if bufs[b].refcnt == 0 then stamp == old(stamp)[b := old(clock)] && clock == old(clock) + 1 &&
        |ring| > 0 && ring[0] == b
              else stamp == old(stamp) && ring == old(ring)
      ensures forall k: Key {:trigger ValueOf(bufs, disk, k)} :: k.dev != 0 ==>
        ValueOf(bufs, disk, k) == ValueOf(old(bufs), disk, k)
    {
      ghost var was := bufs;
      assert CleanAt(bufs[b], disk) && RefsOk(bufs[b], waiting[b]);
      Replace(b, bufs[b].(refcnt := bufs[b].refcnt - 1), waiting[b] - 1);
      forall k: Key | k.dev != 0
        ensures ValueOf(bufs, disk, k) == ValueOf(was, disk, k)
      {
        SameValue(was, bufs, disk, k);
      }
      if bufs[b].refcnt == 0 {
        MoveToFront(b);
      }
    }

    method MoveToFront(b: int)
      requires ListOk() && 0 <= b < NBUF
      modifies `next, `prev, `ring, `stamp, `clock
      ensures ListOk() && stamp == old(stamp)[b := old(clock)] && clock == old(clock) + 1 && |ring| > 0 && ring[0] == b
    {
      assert b in ring;
      ghost var k :| 0 <= k < |ring| && ring[k] == b;
      MoveOrdered(ring, stamp, clock, k);
      Unlink(b, k);
      Push(b);
      stamp := stamp[b := clock];
      clock := clock + 1;
    }

    method Unlink(b: int, ghost k: int)
      requires Linked(next, prev, ring) && 0 <= k < |ring| && ring[k] == b
      modifies `next, `prev, `ring
      ensures Linked(next, prev, ring) && ring == Remove(old(ring), k) && b !in ring
    {
      assert JoinedAt(next, prev, ring, k) && JoinedAt(next, prev, ring, k - 1);
      ghost var next0, prev0 := next, prev;
      prev := prev[next[b] := prev[b]];
      next := next[prev[b] := next[b]];
      UnlinkOk(next0, prev0, ring, k, next, prev);
      ring := Remove(ring, k);
    }

    method Push(b: int)
      requires Linked(next, prev, ring) && 0 <= b < NBUF && b !in ring
      modifies `next, `prev, `ring
      ensures Linked(next, prev, ring) && ring == [b] + old(ring)
    {
      assert JoinedAt(next, prev, ring, -1);
      ghost var next0, prev0 := next, prev;
      next := next[b := next[HEAD]];
      prev := prev[b := HEAD];
      prev := prev[next[HEAD] := b];
      next := next[HEAD := b];
      PushOk(next0, prev0, ring, b, next, prev);
      ring := [b] + ring;
    }

    /** binit. */
    constructor (d: map<Key, int>)
      ensures Valid() && disk == d
      ensures forall b :: 0 <= b < NBUF ==> bufs[b] == Buf(Key(0, 0), false, false, 0, false, 0)
    {
      next, prev := seq(NBUF + 1, _ => HEAD), seq(NBUF + 1, _ => HEAD);
      bufs, disk := seq(NBUF, _ => Buf(Key(0, 0), false, false, 0, false, 0)), d;
      waiting, stamp, clock, ring := seq(NBUF, _ => 0), seq(NBUF, i => i), NBUF, [];
      new;
      assert Joined(next, prev, At(ring, -1), At(ring, 0));
      var b := 0;
      while b < NBUF
        invariant 0 <= b <= NBUF && Linked(next, prev, ring) && |ring| == b
        invariant forall j :: 0 <= j < b ==> ring[j] == b - 1 - j
        invariant disk == d && bufs == seq(NBUF, _ => Buf(Key(0, 0), false, false, 0, false, 0))
        invariant waiting == seq(NBUF, _ => 0) && stamp == seq(NBUF, i => i) && clock == NBUF
      {
        Push(b);
        b := b + 1;
      }
      forall e | 0 <= e < NBUF
        ensures e in ring
      {
        assert ring[NBUF - 1 - e] == e;
      }
    }
  }

  /** The block `key` has got contents v, and no other block of a real device has changed. */
  ghost predicate Written(bufs: seq<Buf>, disk: map<Key, int>, bufs': seq<Buf>, disk': map<Key, int>, key: Key,
      v: int) {
    && (key.dev != 0 ==> ValueOf(bufs', disk', key) == v)
    && forall k: Key {:trigger ValueOf(bufs', disk', k)} :: k.dev != 0 && k != key ==>
        ValueOf(bufs', disk', k) == ValueOf(bufs, disk, k)
  }

  lemma WrittenOne(bufs: seq<Buf>, disk: map<Key, int>, disk': map<Key, int>, b: int, x: Buf)
    requires Unique(bufs) && 0 <= b < |bufs| && x.key == bufs[b].key && x.valid
    requires forall k: Key :: k != x.key ==> OnDisk(disk', k) == OnDisk(disk, k)
    ensures Written(bufs, disk, bufs[b := x], disk', x.key, x.data)
  {
    var bufs' := bufs[b := x];
    UniqueKept(bufs, b, x);
    if x.key.dev != 0 {
      assert Caches(bufs', b, x.key);
      CachedValue(bufs', disk', b, x.key);
    }
    forall k: Key | k.dev != 0 && k != x.key
      ensures ValueOf(bufs', disk', k) == ValueOf(bufs, disk, k)
    {
      OtherValue(bufs, disk, disk', b, x, k);
    }
  }

  /** Loading a buffer from disk, or finding it loaded, changes the contents of no block. */
  lemma LoadValue(bufs: seq<Buf>, disk: map<Key, int>, b: int, x: Buf, key: Key)
    requires Unique(bufs) && 0 <= b < |bufs| && x.key == bufs[b].key && x.valid && key.dev != 0
    requires x.data == if bufs[b].valid then bufs[b].data else OnDisk(disk, x.key)
    ensures ValueOf(bufs[b := x], disk, key) == ValueOf(bufs, disk, key)
  {
    var bufs' := bufs[b := x];
    UniqueKept(bufs, b, x);
    if key == x.key {
      assert Caches(bufs', b, key);
      CachedValue(bufs', disk, b, key);
      if bufs[b].valid {
        CachedValue(bufs, disk, b, key);
      } else {
        forall i | Caches(bufs, i, key)
          ensures i == b
        {
          assert i < b ==> !SameBlock(bufs[i], bufs[b]);
          assert b < i ==> !SameBlock(bufs[b], bufs[i]);
        }
      }
    } else {
      OtherValue(bufs, disk, disk, b, x, key);
    }
  }
}

/** The user-level memory allocator of umalloc.c (section 8.7 of "The C Programming
    Language", second edition).

    Addresses count in units of sizeof(Header), which is 8 bytes here.  The header words
    are two maps from address to contents, written in place; header words of addresses
    that are no longer blocks stay behind, as in memory.  `base` is the static empty
    block, below every heap address; address 0 is the null pointer.

    Ghost state names what the pointers mean: the ring of free blocks in address order
    starting at `base`, the blocks handed out, and all units ever obtained from sbrk. */
module Umalloc {

  const UNIT: int := 8
  const MINUNITS: int := 4096
  const U32: int := 0x1_0000_0000

  // ---------- a partition of units into blocks ----------

  predicate Within(size: map<int, int>, b: int, u: int) {
    b in size && b <= u < b + size[b]
  }

  /** Every unit lies in exactly one block: blocks are disjoint and cover `units`. */
  ghost predicate Partition(blocks: set<int>, size: map<int, int>, units: set<int>) {
    && (forall b :: b in blocks ==> b in size && size[b] > 0)
    && (forall a, b :: a in blocks && b in blocks && a < b ==> a + size[a] <= b)
    && (forall u :: u in units <==> exists b :: b in blocks && Within(size, b, u))
  }

  lemma MergeBlocks(blocks: set<int>, size: map<int, int>, units: set<int>, a: int, b: int)
    requires Partition(blocks, size, units) && a in blocks && b in blocks && a + size[a] == b
    ensures Partition(blocks - {b}, size[a := size[a] + size[b]], units)
  {
    var blocks', size' := blocks - {b}, size[a := size[a] + size[b]];
    forall u | u in units ensures exists c :: c in blocks' && Within(size', c, u) {
      var c :| c in blocks && Within(size, c, u);
      assert Within(size', if c == b then a else c, u);
    }
    forall u, c | c in blocks' && Within(size', c, u) ensures u in units {
      assert Within(size, if c == a && b <= u then b else c, u);
    }
  }

  lemma SplitBlock(blocks: set<int>, size: map<int, int>, units: set<int>, a: int, k: int)
    requires Partition(blocks, size, units) && a in blocks && 0 < k < size[a]
    ensures a + k !in blocks
    ensures Partition(blocks + {a + k}, size[a := k][a + k := size[a] - k], units)
  {
    var b := a + k;
    var blocks', size' := blocks + {b}, size[a := k][b := size[a] - k];
    forall u | u in units ensures exists c :: c in blocks' && Within(size', c, u) {
      var c :| c in blocks && Within(size, c, u);
      assert Within(size', if c == a && b <= u then b else c, u);
    }
    forall u, c | c in blocks' && Within(size', c, u) ensures u in units {
      assert Within(size, if c == b then a else c, u);
    }
  }

  /** `span` is the set of the `n` units from `a` on. */
  ghost predicate IsSpan(span: set<int>, a: int, n: int) {
    forall u :: u in span <==> a <= u < a + n
  }

  lemma AddBlock(blocks: set<int>, size: map<int, int>, units: set<int>, a: int, n: int, span: set<int>)
    requires Partition(blocks, size, units) && n > 0 && IsSpan(span, a, n) && span !! units
    ensures a !in blocks
    ensures Partition(blocks + {a}, size[a := n], units + span)
  {
    var blocks', size', units' := blocks + {a}, size[a := n], units + span;
    assert a in span && a !in units;
    forall b | b in blocks ensures b + size[b] <= a || a + n <= b {
      assert Within(size, b, b) && b in units && b !in span;
      assert Within(size, b, a) ==> a in units;
    }
    forall u | u in units' ensures exists c :: c in blocks' && Within(size', c, u) {
      if u in units {
        var c :| c in blocks && Within(size, c, u);
        assert Within(size', c, u);
      } else {
        assert Within(size', a, u);
      }
    }
    forall u, c | c in blocks' && Within(size', c, u) ensures u in units' {
      if c != a { assert Within(size, c, u); }
    }
  }

  // ---------- the ring of free blocks ----------

  /** Block `i` of the ring ends before block `j` begins, with room between. */
  predicate Gap(ring: seq<int>, size: map<int, int>, i: int, j: int) {
    0 <= i < j < |ring| && ring[i] in size && ring[i] + size[ring[i]] < ring[j]
  }

  /** The free list in address order from `base`: strictly increasing with a gap after
      every block, so no two free blocks touch, and with a single wrap back to `base`. */
  ghost predicate RingOk(base: int, ring: seq<int>, size: map<int, int>) {
    && |ring| > 0 && ring[0] == base
    && (forall i :: 0 <= i < |ring| ==> ring[i] in size)
    && size[base] == 0
    && (forall i, j {:trigger Gap(ring, size, i, j)} :: 0 <= i < j < |ring| ==> Gap(ring, size, i, j))
  }

  function Next(ring: seq<int>, i: int): (a: int)
    requires 0 <= i < |ring|
  {
    if i + 1 < |ring| then ring[i + 1] else ring[0]
  }

  ghost predicate Linked(ring: seq<int>, ptr: map<int, int>) {
    && (forall i :: 0 <= i < |ring| ==> ring[i] in ptr)
    && (forall i {:trigger Next(ring, i)} :: 0 <= i < |ring| ==> ptr[ring[i]] == Next(ring, i))
  }

  /** Steps from position `i` to position `j` around a ring of `n`. */
  function Dist(i: int, j: int, n: int): (d: int) {
    if i <= j then j - i else j - i + n
  }

  /** The blocks are the ring without `base` together with the live blocks. */
  ghost predicate Holders(base: int, ring: seq<int>, live: set<int>, blocks: set<int>) {
    && (forall b :: b in blocks <==> b in live || (b in ring && b != base))
    && (forall b :: b in live ==> b !in ring)
  }

  ghost predicate HeapOk(base: int, ring: seq<int>, size: map<int, int>, live: set<int>, units: set<int>,
      blocks: set<int>) {
    && RingOk(base, ring, size)
    && Holders(base, ring, live, blocks)
    && Partition(blocks, size, units)
    && (forall u :: u in units ==> base < u)
  }

  // ---------- the ring position of an address ----------

  /** The last ring position below address `a`. */
  ghost predicate IsPos(ring: seq<int>, a: int, i: int) {
    0 <= i < |ring| && ring[i] < a && (i + 1 < |ring| ==> a < ring[i + 1])
  }

  lemma {:induction false} FindPos(base: int, ring: seq<int>, size: map<int, int>, a: int, n: int) returns (i: int)
    requires RingOk(base, ring, size) && base < a && a !in ring && 0 < n <= |ring|
    requires forall j :: 0 <= j < |ring| ==> size[ring[j]] >= 0
    requires n < |ring| ==> a < ring[n]
    ensures IsPos(ring, a, i)
    decreases n
  {
    if ring[n - 1] < a {
      i := n - 1;
    } else {
      assert ring[n - 1] in ring;
      i := FindPos(base, ring, size, a, n - 1);
    }
  }

  /** The condition on which free()'s search loop stops. */
  predicate Stops(p: int, next: int, bp: int) {
    (bp > p && bp < next) || (p >= next && (bp > p || bp < next))
  }

  /** It holds at exactly one place of the ring: the block's own position. */
  lemma StopsIff(base: int, ring: seq<int>, size: map<int, int>, bp: int, i: int, k: int)
    requires RingOk(base, ring, size) && bp !in ring && IsPos(ring, bp, i) && base < bp && 0 <= k < |ring|
    requires forall j :: 0 <= j < |ring| ==> size[ring[j]] >= 0
    ensures Stops(ring[k], Next(ring, k), bp) <==> k == i
  {
    if k < i {
      assert Gap(ring, size, k, k + 1);
      if k + 1 < i { assert Gap(ring, size, k + 1, i); }
    } else if k > i {
      if i + 1 < k { assert Gap(ring, size, i + 1, k); }
      if k + 1 < |ring| { assert Gap(ring, size, k, k + 1); }
    } else if k > 0 {
      assert Gap(ring, size, 0, k);
    }
  }

  lemma RingFacts(base: int, ring: seq<int>, size: map<int, int>, live: set<int>, units: set<int>, blocks: set<int>)
    requires HeapOk(base, ring, size, live, units, blocks)
    ensures forall j :: 0 <= j < |ring| ==> size[ring[j]] >= 0
    ensures forall j :: 0 < j < |ring| ==> base < ring[j] && size[ring[j]] > 0 && ring[j] in blocks
    ensures forall b :: b in live ==> base < b && b !in ring && b in size && size[b] > 0
    ensures Apart(ring)
  {
    forall j | 0 < j < |ring| ensures base < ring[j] && ring[j] in blocks {
      assert Gap(ring, size, 0, j);
    }
    forall b | b in live ensures base < b {
      assert b in blocks && Within(size, b, b) && b in units;
    }
    forall i, j | 0 <= i < j < |ring| ensures ring[i] != ring[j] { assert Gap(ring, size, i, j); }
  }

  ghost predicate Apart(ring: seq<int>) {
    forall i, j :: 0 <= i < j < |ring| ==> ring[i] != ring[j]
  }

  // ---------- free: insert with coalescing ----------

  /** As `RingOk`, except that block `k` may touch the one before it. */
  ghost predicate RingLoose(base: int, ring: seq<int>, size: map<int, int>, k: int) {
    && |ring| > 0 && ring[0] == base
    && (forall i :: 0 <= i < |ring| ==> ring[i] in size)
    && size[base] == 0
    && (forall j :: 0 < j < |ring| ==> base < ring[j])
    && (forall i, j {:trigger Gap(ring, size, i, j)} :: 0 <= i < j < |ring| ==>
         Gap(ring, size, i, j) || (i + 1 == j == k && ring[i] + size[ring[i]] == ring[j]))
  }

  ghost predicate HeapLoose(base: int, ring: seq<int>, size: map<int, int>, live: set<int>, units: set<int>,
      blocks: set<int>, k: int) {
    && RingLoose(base, ring, size, k)
    && Holders(base, ring, live, blocks)
    && Partition(blocks, size, units)
    && (forall u :: u in units ==> base < u)
  }

  /** A live block lies strictly between its ring neighbours. */
  lemma LiveBetween(base: int, ring: seq<int>, size: map<int, int>, live: set<int>, units: set<int>,
      blocks: set<int>, bp: int, i: int)
    requires HeapOk(base, ring, size, live, units, blocks) && bp in live && IsPos(ring, bp, i)
    ensures bp in blocks && bp in size && size[bp] > 0 && base < bp
    ensures forall j :: 0 <= j <= i ==> ring[j] + size[ring[j]] <= bp
    ensures forall j :: 0 <= j < i ==> ring[j] + size[ring[j]] < bp
    ensures forall j :: i < j < |ring| ==> bp + size[bp] <= ring[j]
    ensures forall j :: 0 < j < |ring| ==> ring[j] in blocks && size[ring[j]] > 0
    ensures ring[0] + size[ring[0]] < bp
  {
    assert bp in blocks;
    assert Within(size, bp, bp) && bp in units;
    forall j | 0 < j < |ring| ensures ring[j] in blocks && size[ring[j]] > 0 && ring[j] != base {
      assert Gap(ring, size, 0, j);
    }
    forall j | 0 <= j < i ensures ring[j] + size[ring[j]] < bp {
      assert Gap(ring, size, j, i);
    }
    forall j | i < j < |ring| ensures bp < ring[j] {
      if i + 1 < j { assert Gap(ring, size, i + 1, j); }
    }
  }

  function Inserted(ring: seq<int>, i: int, bp: int): (r: seq<int>)
    requires 0 <= i < |ring|
  {
    ring[..i + 1] + [bp] + ring[i + 1..]
  }

  function Removed(ring: seq<int>, i: int): (r: seq<int>)
    requires 0 <= i < |ring|
  {
    ring[..i] + ring[i + 1..]
  }

  /** The freed block does not reach the next free block. */
  lemma FreeApart(base: int, ring: seq<int>, size: map<int, int>, live: set<int>, units: set<int>, blocks: set<int>,
      bp: int, i: int)
    requires HeapOk(base, ring, size, live, units, blocks) && bp in live && IsPos(ring, bp, i)
    requires i + 1 < |ring| ==> bp + size[bp] != ring[i + 1]
    ensures HeapLoose(base, Inserted(ring, i, bp), size, live - {bp}, units, blocks, i + 1)
  {
    LiveBetween(base, ring, size, live, units, blocks, bp, i);
    var r := Inserted(ring, i, bp);
    forall j | i < j < |ring| ensures bp + size[bp] < ring[j] {
      if i + 1 < j { assert Gap(ring, size, i + 1, j); }
    }
    assert forall j :: 0 < j < |ring| ==> base < ring[j] by { RingFacts(base, ring, size, live, units, blocks); }
    InsertedRing(base, ring, size, bp, i);
    forall x ensures x in r <==> x in ring || x == bp { InsertedHas(ring, i, bp, x); }
  }

  lemma InsertedRing(base: int, ring: seq<int>, size: map<int, int>, bp: int, i: int)
    requires RingOk(base, ring, size) && 0 <= i < |ring| && bp in size && base < bp
    requires forall j :: 0 < j < |ring| ==> base < ring[j]
    requires forall j :: 0 <= j < i ==> ring[j] + size[ring[j]] < bp
    requires ring[i] + size[ring[i]] <= bp
    requires forall j :: i < j < |ring| ==> bp + size[bp] < ring[j]
    ensures RingLoose(base, Inserted(ring, i, bp), size, i + 1)
  {
    var r := Inserted(ring, i, bp);
    forall x, y | 0 <= x < y < |r|
      ensures r[x] in size && (Gap(r, size, x, y) || (x + 1 == y == i + 1 && r[x] + size[r[x]] == r[y]))
    {
      var x', y' := if x <= i then x else x - 1, if y <= i then y else y - 1;
      assert x != i + 1 ==> r[x] == ring[x'];
      assert y != i + 1 ==> r[y] == ring[y'];
      assert x != i + 1 && y != i + 1 ==> Gap(ring, size, x', y');
    }
  }

  lemma InsertedHas(ring: seq<int>, i: int, bp: int, x: int)
    requires 0 <= i < |ring|
    ensures x in Inserted(ring, i, bp) <==> x in ring || x == bp
  {
    assert ring == ring[..i + 1] + ring[i + 1..];
  }

  /** The freed block reaches the next free block and swallows it. */
  lemma FreeJoinsNext(base: int, ring: seq<int>, size: map<int, int>, live: set<int>, units: set<int>,
      blocks: set<int>, bp: int, i: int)
    requires HeapOk(base, ring, size, live, units, blocks) && bp in live && IsPos(ring, bp, i)
    requires i + 1 < |ring| && bp in size && bp + size[bp] == ring[i + 1]
    ensures HeapLoose(base, ring[i + 1 := bp], size[bp := size[bp] + size[ring[i + 1]]],
                      live - {bp}, units, blocks - {ring[i + 1]}, i + 1)
  {
    LiveBetween(base, ring, size, live, units, blocks, bp, i);
    MergeBlocks(blocks, size, units, bp, ring[i + 1]);
    JoinedRing(base, ring, size, bp, i);
    ApartFromRing(base, ring, size, live, units, blocks, bp);
    forall x ensures x in ring[i + 1 := bp] <==> (x in ring && x != ring[i + 1]) || x == bp {
      ReplacedHas(ring, i + 1, bp, x);
    }
  }

  lemma JoinedRing(base: int, ring: seq<int>, size: map<int, int>, bp: int, i: int)
    requires RingOk(base, ring, size) && IsPos(ring, bp, i) && i + 1 < |ring|
    requires bp in size && bp + size[bp] == ring[i + 1] && bp !in ring
    requires forall j :: 0 <= j < i ==> ring[j] + size[ring[j]] < bp
    requires ring[i] + size[ring[i]] <= bp
    ensures RingLoose(base, ring[i + 1 := bp], size[bp := size[bp] + size[ring[i + 1]]], i + 1)
  {
    var r, size' := ring[i + 1 := bp], size[bp := size[bp] + size[ring[i + 1]]];
    forall j | 0 <= j < |ring| ensures ring[j] != bp { assert ring[j] in ring; }
    forall j | 0 < j < |r| ensures base < r[j] {
      assert Gap(ring, size, 0, j);
      if 0 < i { assert Gap(ring, size, 0, i); }
    }
    forall x, y | 0 <= x < y < |r|
      ensures r[x] in size' && (Gap(r, size', x, y) || (x + 1 == y == i + 1 && r[x] + size'[r[x]] == r[y]))
    {
      assert Gap(ring, size, x, y);
    }
  }

  lemma ReplacedHas(ring: seq<int>, k: int, bp: int, x: int)
    requires 0 <= k < |ring| && Apart(ring)
    ensures x in ring[k := bp] <==> (x in ring && x != ring[k]) || x == bp
  {
    var r := ring[k := bp];
    assert r[k] == bp;
    if x in ring && x != ring[k] {
      var j :| 0 <= j < |ring| && ring[j] == x;
      assert r[j] == x;
    }
    if x in r && x != bp {
      var j :| 0 <= j < |r| && r[j] == x;
      assert ring[j] == x;
    }
  }

  /** Block `k` touches the one before it and is swallowed by it. */
  lemma FreeJoinsPrevious(base: int, ring: seq<int>, size: map<int, int>, live: set<int>, units: set<int>,
      blocks: set<int>, k: int)
    requires HeapLoose(base, ring, size, live, units, blocks, k) && 0 < k < |ring|
    requires ring[k - 1] + size[ring[k - 1]] == ring[k] && ring[k - 1] != base
    ensures HeapOk(base, Removed(ring, k), size[ring[k - 1] := size[ring[k - 1]] + size[ring[k]]],
                   live, units, blocks - {ring[k]})
  {
    var p, b := ring[k - 1], ring[k];
    assert p in blocks && b in blocks;
    var r, size' := Removed(ring, k), size[p := size[p] + size[b]];
    MergeBlocks(blocks, size, units, p, b);
    forall j | 0 <= j < |ring| && j != k - 1 ensures ring[j] != p {
      assert j < k - 1 ==> Gap(ring, size, j, k - 1);
      assert j > k ==> Gap(ring, size, k - 1, j);
    }
    LooseFacts(base, ring, size, live, units, blocks, k);
    SwallowedRing(base, ring, size, k);
    forall x ensures x in r <==> x in ring && x != b { RemovedHas(ring, size, k, x); }
  }

  lemma SwallowedRing(base: int, ring: seq<int>, size: map<int, int>, k: int)
    requires RingLoose(base, ring, size, k) && 0 < k < |ring| && ring[k - 1] != base
    requires ring[k - 1] + size[ring[k - 1]] == ring[k]
    requires forall j :: 0 <= j < |ring| && j != k - 1 ==> ring[j] != ring[k - 1]
    ensures RingOk(base, Removed(ring, k), size[ring[k - 1] := size[ring[k - 1]] + size[ring[k]]])
  {
    var r, size' := Removed(ring, k), size[ring[k - 1] := size[ring[k - 1]] + size[ring[k]]];
    forall i, j | 0 <= i < j < |r| ensures r[i] + size'[r[i]] < r[j] {
      var i', j' := if i < k then i else i + 1, if j < k then j else j + 1;
      assert r[i] == ring[i'] && r[j] == ring[j'];
      assert Gap(ring, size, i', j');
      if i' == k - 1 { assert Gap(ring, size, k, j'); }
    }
  }

  lemma RemovedHas(ring: seq<int>, size: map<int, int>, k: int, x: int)
    requires 0 <= k < |ring| && Apart(ring)
    ensures x in Removed(ring, k) <==> x in ring && x != ring[k]
  {
    var r := Removed(ring, k);
    if x in ring && x != ring[k] {
      var j :| 0 <= j < |ring| && ring[j] == x;
      assert r[if j < k then j else j - 1] == x;
    }
    if x in r {
      var j :| 0 <= j < |r| && r[j] == x;
      assert x == ring[if j < k then j else j + 1];
    }
  }

  lemma LooseIsOk(base: int, ring: seq<int>, size: map<int, int>, live: set<int>, units: set<int>, blocks: set<int>,
      k: int)
    requires HeapLoose(base, ring, size, live, units, blocks, k)
    requires 0 < k < |ring| && ring[k - 1] + size[ring[k - 1]] != ring[k]
    ensures HeapOk(base, ring, size, live, units, blocks)
  {
  }

  // ---------- the pointers ----------

  lemma LinkInsert(ring: seq<int>, ptr: map<int, int>, i: int, bp: int)
    requires Linked(ring, ptr) && Apart(ring) && 0 <= i < |ring| && bp !in ring
    ensures Linked(Inserted(ring, i, bp), ptr[bp := Next(ring, i)][ring[i] := bp])
  {
    var r, ptr' := Inserted(ring, i, bp), ptr[bp := Next(ring, i)][ring[i] := bp];
    forall k | 0 <= k < |r| ensures r[k] in ptr' && ptr'[r[k]] == Next(r, k) {
      if k <= i {
        assert r[k] == ring[k] && ptr[ring[k]] == Next(ring, k);
      } else if k > i + 1 {
        assert r[k] == ring[k - 1] && ptr[ring[k - 1]] == Next(ring, k - 1);
      }
    }
  }

  lemma LinkReplace(ring: seq<int>, ptr: map<int, int>, i: int, bp: int)
    requires Linked(ring, ptr) && Apart(ring) && 0 <= i < i + 1 < |ring| && bp !in ring
    ensures Linked(ring[i + 1 := bp], ptr[bp := Next(ring, i + 1)][ring[i] := bp])
  {
    var r, ptr' := ring[i + 1 := bp], ptr[bp := Next(ring, i + 1)][ring[i] := bp];
    forall k | 0 <= k < |r| ensures r[k] in ptr' && ptr'[r[k]] == Next(r, k) {
      assert ring[k] in ring;
      assert ptr[ring[k]] == Next(ring, k);
    }
  }

  lemma LinkRemove(ring: seq<int>, ptr: map<int, int>, k: int)
    requires Linked(ring, ptr) && Apart(ring) && 0 < k < |ring|
    ensures Linked(Removed(ring, k), ptr[ring[k - 1] := Next(ring, k)])
  {
    var r, ptr' := Removed(ring, k), ptr[ring[k - 1] := Next(ring, k)];
    forall j | 0 <= j < |r| ensures r[j] in ptr' && ptr'[r[j]] == Next(r, j) {
      var i := if j < k then j else j + 1;
      assert r[j] == ring[i] && ptr[ring[i]] == Next(ring, i);
    }
  }

  lemma NextFacts(base: int, ring: seq<int>, size: map<int, int>, live: set<int>, units: set<int>, blocks: set<int>,
      ptr: map<int, int>, bp: int, i: int)
    requires HeapOk(base, ring, size, live, units, blocks) && Linked(ring, ptr) && bp in live && IsPos(ring, bp, i)
    ensures bp in size && bp != ring[i] && ring[i] in ptr && ptr[ring[i]] == Next(ring, i)
    ensures bp + size[bp] == Next(ring, i) ==>
      i + 1 < |ring| && Next(ring, i) in ptr && Next(ring, i) in size &&
      size[Next(ring, i)] > 0
  {
    RingFacts(base, ring, size, live, units, blocks);
  }

  lemma NextJoined(base: int, ring: seq<int>, size: map<int, int>, live: set<int>, units: set<int>,
      blocks: set<int>, ptr: map<int, int>, bp: int, i: int)
    requires HeapOk(base, ring, size, live, units, blocks) && Linked(ring, ptr) && bp in live && IsPos(ring, bp, i)
    requires i + 1 < |ring| && bp in size && bp + size[bp] == ring[i + 1]
    ensures
      var r, n := ring[i + 1 := bp], ring[i + 1];
      && n in ptr && HeapLoose(base, r, size[bp := size[bp] + size[n]], live - {bp}, units, blocks - {n}, i + 1)
      && Linked(r, ptr[bp := ptr[n]][ring[i] := bp])
  {
    ApartFromRing(base, ring, size, live, units, blocks, bp);
    FreeJoinsNext(base, ring, size, live, units, blocks, bp, i);
    LinkReplace(ring, ptr, i, bp);
  }

  lemma NextApart(base: int, ring: seq<int>, size: map<int, int>, live: set<int>, units: set<int>, blocks: set<int>,
      ptr: map<int, int>, bp: int, i: int)
    requires HeapOk(base, ring, size, live, units, blocks) && Linked(ring, ptr) && bp in live && IsPos(ring, bp, i)
    requires bp in size && bp + size[bp] != Next(ring, i)
    ensures
      var r := Inserted(ring, i, bp);
      && |r| > i + 1 && r[i] == ring[i] && r[i + 1] == bp
      && HeapLoose(base, r, size, live - {bp}, units, blocks, i + 1)
      && Linked(r, ptr[bp := Next(ring, i)][ring[i] := bp])
  {
    ApartFromRing(base, ring, size, live, units, blocks, bp);
    FreeApart(base, ring, size, live, units, blocks, bp, i);
    LinkInsert(ring, ptr, i, bp);
  }

  lemma PreviousJoined(base: int, ring: seq<int>, size: map<int, int>, live: set<int>, units: set<int>,
      blocks: set<int>, ptr: map<int, int>, k: int)
    requires HeapLoose(base, ring, size, live, units, blocks, k) && 0 < k < |ring| && ring[k] in ptr
    requires Linked(ring, ptr[ring[k - 1] := ring[k]])
    requires ring[k - 1] + size[ring[k - 1]] == ring[k]
    ensures
      var p, bp := ring[k - 1], ring[k];
      && HeapOk(base, Removed(ring, k), size[p := size[p] + size[bp]], live, units, blocks - {bp})
      && Linked(Removed(ring, k), ptr[p := ptr[bp]])
      && Removed(ring, k)[k - 1] == p && p !in live && size[bp] > 0 && p < bp
  {
    var p, bp := ring[k - 1], ring[k];
    LooseFacts(base, ring, size, live, units, blocks, k);
    FreeJoinsPrevious(base, ring, size, live, units, blocks, k);
    assert Linked(Removed(ring, k), ptr[p := ptr[bp]]) by {
      LinkRemove(ring, ptr[p := bp], k);
      assert ptr[p := bp][ring[k]] == Next(ring, k);
      assert ptr[p := bp][p := Next(ring, k)] == ptr[p := ptr[bp]];
    }
  }

  lemma LooseFacts(base: int, ring: seq<int>, size: map<int, int>, live: set<int>, units: set<int>,
      blocks: set<int>, k: int)
    requires HeapLoose(base, ring, size, live, units, blocks, k) && 0 < k < |ring|
    ensures Apart(ring) && base < ring[k] && size[ring[k]] > 0 && size[ring[k - 1]] >= 0
    ensures ring[k - 1] !in live
    ensures ring[k - 1] + size[ring[k - 1]] == ring[k] ==> ring[k - 1] != base
  {
    forall j | 0 < j < |ring| ensures ring[j] in blocks { assert ring[j] in ring; }
    forall i, j | 0 <= i < j < |ring| ensures ring[i] != ring[j] {
      assert Gap(ring, size, i, j) || ring[i] + size[ring[i]] == ring[j];
    }
  }

  lemma ApartFromRing(base: int, ring: seq<int>, size: map<int, int>, live: set<int>, units: set<int>,
      blocks: set<int>, bp: int)
    requires HeapOk(base, ring, size, live, units, blocks) && bp in live
    ensures Apart(ring) && bp !in ring
  {
    RingFacts(base, ring, size, live, units, blocks);
  }

  // ---------- the free list is determined by what is live ----------

  /** A unit is free when it is owned and in no live block. */
  ghost predicate FreeUnit(size: map<int, int>, live: set<int>, units: set<int>, u: int) {
    u in units && forall b :: b in live ==> !Within(size, b, u)
  }

  /** The free units are those of the ring blocks. */
  lemma FreeUnitsAreRing(base: int, ring: seq<int>, size: map<int, int>, live: set<int>, units: set<int>,
      blocks: set<int>, u: int)
    requires HeapOk(base, ring, size, live, units, blocks)
    ensures FreeUnit(size, live, units, u) <==> exists i :: 0 <= i < |ring| && Within(size, ring[i], u)
  {
    RingFacts(base, ring, size, live, units, blocks);
    if FreeUnit(size, live, units, u) {
      var b :| b in blocks && Within(size, b, u);
      assert b in ring;
    }
    if i :| 0 <= i < |ring| && Within(size, ring[i], u) {
      assert ring[i] in blocks;
      forall b | b in live ensures !Within(size, b, u) { assert b in blocks && b != ring[i]; }
    }
  }

  /** Two heaps with the same owned units and the same live blocks have the same free
      list with the same sizes, whatever calls led to them: its blocks are the maximal
      runs of free units. */
  lemma FreeListUnique(base: int, units: set<int>, live: set<int>, ring: seq<int>, size: map<int, int>,
      blocks: set<int>, ring': seq<int>, size': map<int, int>, blocks': set<int>)
    requires HeapOk(base, ring, size, live, units, blocks) && HeapOk(base, ring', size', live, units, blocks')
    requires SameSizes(live, size, size')
    ensures ring == ring'
    ensures forall i :: 0 <= i < |ring| ==> size[ring[i]] == size'[ring'[i]]
  {
    var n := if |ring| <= |ring'| then |ring| else |ring'|;
    PrefixesAgree(base, units, live, ring, size, blocks, ring', size', blocks', n);
    if n < |ring| { StartsNoLater(base, units, live, ring, size, blocks, ring', size', blocks', n); }
    if n < |ring'| { StartsNoLater(base, units, live, ring', size', blocks', ring, size, blocks, n); }
  }

  lemma {:induction false} PrefixesAgree(base: int, units: set<int>, live: set<int>, ring: seq<int>,
      size: map<int, int>, blocks: set<int>, ring': seq<int>, size': map<int, int>, blocks': set<int>, k: nat)
    requires HeapOk(base, ring, size, live, units, blocks) && HeapOk(base, ring', size', live, units, blocks')
    requires SameSizes(live, size, size') && k <= |ring| && k <= |ring'|
    ensures SamePrefix(ring, size, ring', size', k)
  {
    if k > 0 {
      PrefixesAgree(base, units, live, ring, size, blocks, ring', size', blocks', k - 1);
      StartsNoLater(base, units, live, ring, size, blocks, ring', size', blocks', k - 1);
      StartsNoLater(base, units, live, ring', size', blocks', ring, size, blocks, k - 1);
      EndsNoLater(base, units, live, ring, size, blocks, ring', size', blocks', k - 1);
      EndsNoLater(base, units, live, ring', size', blocks', ring, size, blocks, k - 1);
    }
  }

  ghost predicate SamePrefix(ring: seq<int>, size: map<int, int>, ring': seq<int>, size': map<int, int>, k: nat) {
    k <= |ring| && k <= |ring'| && forall i :: 0 <= i < k ==>
      ring[i] == ring'[i] && ring[i] in size && ring'[i] in size' && size[ring[i]] == size'[ring'[i]]
  }

  lemma StartsNoLater(base: int, units: set<int>, live: set<int>, ring: seq<int>, size: map<int, int>,
      blocks: set<int>, ring': seq<int>, size': map<int, int>, blocks': set<int>, k: nat)
    requires HeapOk(base, ring, size, live, units, blocks) && HeapOk(base, ring', size', live, units, blocks')
    requires SameSizes(live, size, size') && SamePrefix(ring, size, ring', size', k) && k < |ring|
    ensures k < |ring'| && ring'[k] <= ring[k]
  {
    if k > 0 {
      RingFacts(base, ring, size, live, units, blocks);
      var u := ring[k];
      assert Within(size, ring[k], u);
      FreeUnitsAreRing(base, ring, size, live, units, blocks, u);
      FreeUnitsAreRing(base, ring', size', live, units, blocks', u);
      var j :| 0 <= j < |ring'| && Within(size', ring'[j], u);
      if k < j { assert Gap(ring', size', k, j); RingFacts(base, ring', size', live, units, blocks'); }
    }
  }

  lemma EndsNoLater(base: int, units: set<int>, live: set<int>, ring: seq<int>, size: map<int, int>,
      blocks: set<int>, ring': seq<int>, size': map<int, int>, blocks': set<int>, k: nat)
    requires HeapOk(base, ring, size, live, units, blocks) && HeapOk(base, ring', size', live, units, blocks')
    requires SameSizes(live, size, size') && k < |ring| && k < |ring'| && ring[k] == ring'[k]
    ensures size[ring[k]] >= size'[ring'[k]]
  {
    RingFacts(base, ring, size, live, units, blocks);
    var u := ring[k] + size[ring[k]];
    forall j | 0 <= j < |ring| ensures !Within(size, ring[j], u) {
      assert j < k ==> Gap(ring, size, j, k);
      assert k < j ==> Gap(ring, size, k, j);
    }
    FreeUnitsAreRing(base, ring, size, live, units, blocks, u);
    FreeUnitsAreRing(base, ring', size', live, units, blocks', u);
    assert !Within(size', ring'[k], u);
  }

  // ---------- malloc: taking a block ----------

  /** The whole block `k` of the ring becomes live. */
  lemma TakeWhole(base: int, ring: seq<int>, size: map<int, int>, live: set<int>, units: set<int>, blocks: set<int>,
      k: int)
    requires HeapOk(base, ring, size, live, units, blocks) && 0 < k < |ring|
    ensures HeapOk(base, Removed(ring, k), size, live + {ring[k]}, units, blocks)
  {
    var r := Removed(ring, k);
    forall i, j | 0 <= i < j < |r| ensures Gap(r, size, i, j) {
      var i', j' := if i < k then i else i + 1, if j < k then j else j + 1;
      assert r[i] == ring[i'] && r[j] == ring[j'] && Gap(ring, size, i', j');
    }
    RingFacts(base, ring, size, live, units, blocks);
    forall x ensures x in r <==> x in ring && x != ring[k] { RemovedHas(ring, size, k, x); }
  }

  /** The last `n` units of block `k` become a live block of their own. */
  lemma TakeTail(base: int, ring: seq<int>, size: map<int, int>, live: set<int>, units: set<int>, blocks: set<int>,
      k: int, n: int)
    requires HeapOk(base, ring, size, live, units, blocks) && 0 < k < |ring|
    requires ring[k] in size && 0 < n < size[ring[k]]
    ensures
      var p, rest := ring[k], size[ring[k]] - n;
      && p + rest !in blocks
      && HeapOk(base, ring, size[p := rest][p + rest := n], live + {p + rest}, units, blocks + {p + rest})
  {
    var p, rest := ring[k], size[ring[k]] - n;
    RingFacts(base, ring, size, live, units, blocks);
    SplitBlock(blocks, size, units, p, rest);
    var size' := size[p := rest][p + rest := n];
    forall i, j | 0 <= i < j < |ring| ensures Gap(ring, size', i, j) {
      assert Gap(ring, size, i, j);
      assert i > 0 ==> ring[i] in blocks && ring[i] != p + rest;
    }
  }

  /** A region from sbrk becomes one more live block. */
  lemma NewRegion(base: int, ring: seq<int>, size: map<int, int>, live: set<int>, units: set<int>, blocks: set<int>,
      a: int, n: int, span: set<int>)
    requires HeapOk(base, ring, size, live, units, blocks) && n > 0 && base < a && IsSpan(span, a, n) && span !! units
    ensures a !in live && a !in ring
    ensures HeapOk(base, ring, size[a := n], live + {a}, units + span, blocks + {a})
  {
    AddBlock(blocks, size, units, a, n, span);
    forall i | 0 <= i < |ring| ensures ring[i] != a { assert ring[i] != base ==> ring[i] in blocks; }
    var size' := size[a := n];
    forall i, j | 0 <= i < j < |ring| ensures Gap(ring, size', i, j) { assert Gap(ring, size, i, j); }
  }

  // ---------- the code ----------

  /** The blocks `bs` have the same size in both. */
  ghost predicate SameSizes(bs: set<int>, size: map<int, int>, size': map<int, int>) {
    forall b :: b in bs ==> b in size && b in size' && size'[b] == size[b]
  }

  /** Nothing between `freep` (position `f`) and position `k` is large enough. */
  ghost predicate NoneBefore(ring: seq<int>, size: map<int, int>, f: int, k: int, nunits: int) {
    forall j :: 0 <= j < |ring| && Dist(j, f, |ring|) > Dist(k, f, |ring|) ==>
      ring[j] in size && size[ring[j]] < nunits
  }

  lemma Advance(ring: seq<int>, size: map<int, int>, f: int, k: int, nunits: int)
    requires 0 <= f < |ring| && 0 <= k < |ring| && k != f && NoneBefore(ring, size, f, k, nunits)
    requires ring[k] in size && size[ring[k]] < nunits
    ensures
      var k' := if k + 1 < |ring| then k + 1 else 0;
      NoneBefore(ring, size, f, k', nunits) && 0 <= Dist(k', f, |ring|) < Dist(k, f, |ring|)
  {
  }

  lemma NothingFits(ring: seq<int>, size: map<int, int>, f: int, k: int, nunits: int)
    requires 0 <= f < |ring| && 0 <= k < |ring| && ring[k] == ring[f] && NoneBefore(ring, size, f, k, nunits)
    requires Apart(ring) && ring[k] in size && size[ring[k]] < nunits
    ensures forall j :: 0 <= j < |ring| ==> ring[j] in size && size[ring[j]] < nunits
  {
    forall j | 0 <= j < |ring| ensures ring[j] in size && size[ring[j]] < nunits {
      assert j != k ==> Dist(j, f, |ring|) > Dist(k, f, |ring|);
    }
  }

  /** The units malloc asks for, in 32-bit unsigned arithmetic. */
  function Units(nbytes: int): (n: int) {
    (nbytes + UNIT - 1) % U32 / UNIT + 1
  }

  /** The units morecore asks sbrk for. */
  function CoreUnits(nunits: int): (n: int) {
    if nunits < MINUNITS then MINUNITS else nunits
  }

  /** sbrk's argument: the byte count as a signed 32-bit integer. */
  function SbrkBytes(nu: int): (n: int) {
    var b := nu * UNIT % U32;
    if b < U32 / 2 then b else b - U32
  }

  const MAXREQUEST: int := 0x7fff_fff0

  /** The arithmetic does what is meant exactly up to MAXREQUEST bytes: beyond it the
      block is too small for the request or sbrk is asked to shrink the heap. */
  lemma SizesRightIff(nbytes: int)
    requires 0 <= nbytes < U32
    ensures nbytes <= MAXREQUEST <==>
      (Units(nbytes) - 1) * UNIT >= nbytes && SbrkBytes(CoreUnits(Units(nbytes))) == CoreUnits(Units(nbytes)) * UNIT
  {
  }

  class Allocator {
    const base: int
    var ptr: map<int, int>
    var size: map<int, int>
    var freep: int

    ghost var ring: seq<int>
    ghost var live: set<int>
    ghost var units: set<int>
    ghost var blocks: set<int>

    constructor (base: int)
      requires base > 0
      ensures this.base == base && Valid() && live == {} && units == {}
    {
      this.base := base;
      freep := 0;
      ptr, size := map[], map[];
      ring, live, units, blocks := [], {}, {}, {};
    }

    /** Before the first call there is no list; afterwards the list is the ring. */
    ghost predicate Valid()
      reads this
    {
      && base > 0
      && (freep == 0 ==> live == {} && units == {} && blocks == {})
      && (freep != 0 ==> Listed())
    }

    ghost predicate Listed()
      reads this
    {
      && base > 0 && freep != 0 && freep in ring
      && HeapOk(base, ring, size, live, units, blocks)
      && Linked(ring, ptr)
    }

    ghost predicate Fits(nunits: int)
      reads this
    {
      freep != 0 && exists k :: 0 <= k < |ring| && ring[k] in size && size[ring[k]] >= nunits
    }

    /** The search loop of free(): the ring position for `bp`. */
    method Find(bp: int) returns (p: int, ghost i: int)
      requires Listed() && bp in live
      ensures IsPos(ring, bp, i) && p == ring[i]
    {
      ghost var n := |ring|;
      RingFacts(base, ring, size, live, units, blocks);
      i := FindPos(base, ring, size, bp, n);
      ghost var k :| 0 <= k < n && ring[k] == freep;
      p := freep;
      assert ptr[ring[k]] == Next(ring, k);
      StopsIff(base, ring, size, bp, i, k);
      while !(bp > p && bp < ptr[p]) && !(p >= ptr[p] && (bp > p || bp < ptr[p]))
        invariant 0 <= k < n && ring[k] == p && p in ptr
        invariant Stops(p, ptr[p], bp) <==> k == i
        decreases Dist(k, i, n)
      {
        assert ptr[ring[k]] == Next(ring, k);
        p := ptr[p];
        k := if k + 1 < n then k + 1 else 0;
        assert ptr[ring[k]] == Next(ring, k);
        StopsIff(base, ring, size, bp, i, k);
      }
    }

    /** free(): `bp` goes back to the ring, merged with free neighbours on both sides.
        Afterwards ring position `at` holds the block that contains it. */
    method Free(bp: int) returns (ghost at: int)
      requires Listed() && bp in live
      modifies this
      ensures Listed()
      ensures live == old(live) - {bp} && units == old(units)
      ensures SameSizes(live, old(size), size)
      ensures bp in old(size) && 0 <= at < |ring| && ring[at] in size
      ensures ring[at] <= bp && bp + old(size)[bp] <= ring[at] + size[ring[at]]
    {
      RingFacts(base, ring, size, live, units, blocks);
      var p, i := Find(bp);
      JoinNext(bp, p, i);
      at := JoinPrevious(bp, p, i);
    }

    /** `bp` is in the ring after position `i`, but the pointer to it is not set and it
        may still touch the block before it. */
    ghost predicate HalfFreed(bp: int, p: int, i: int)
      reads this
    {
      && base > 0 && 0 <= i < i + 1 < |ring| && ring[i] == p && ring[i + 1] == bp
      && HeapLoose(base, ring, size, live, units, blocks, i + 1)
      && Linked(ring, ptr[p := bp])
    }

    /** free(), first half: take over the next block, or only point to it. */
    method JoinNext(bp: int, p: int, ghost i: int)
      requires Listed() && bp in live && IsPos(ring, bp, i) && p == ring[i]
      modifies this
      ensures HalfFreed(bp, p, i)
      ensures live == old(live) - {bp} && units == old(units)
      ensures bp in old(size) && bp in size && size[bp] >= old(size)[bp] && bp in ptr
      ensures forall b :: b in old(size) && b != bp ==> b in size && size[b] == old(size)[b]
    {
      NextFacts(base, ring, size, live, units, blocks, ptr, bp, i);
      var n := ptr[p];
      if bp + size[bp] == n {
        JoinedNext(bp, p, i);
      } else {
        NextApart(base, ring, size, live, units, blocks, ptr, bp, i);
        ghost var r, l := Inserted(ring, i, bp), live - {bp};
        ptr := ptr[bp := n];
        ring, live := r, l;
      }
    }

    method JoinedNext(bp: int, p: int, ghost i: int)
      requires Listed() && bp in live && IsPos(ring, bp, i) && p == ring[i] && i + 1 < |ring|
      requires bp in size && bp + size[bp] == ring[i + 1] && p in ptr && ptr[p] == ring[i + 1]
      requires ptr[p] in ptr && ptr[p] in size && size[ptr[p]] > 0
      modifies this
      ensures HalfFreed(bp, p, i)
      ensures live == old(live) - {bp} && units == old(units)
      ensures size == old(size)[bp := old(size)[bp] + old(size)[old(ptr)[p]]] && bp in ptr
    {
      NextJoined(base, ring, size, live, units, blocks, ptr, bp, i);
      ghost var r, l, b := ring[i + 1 := bp], live - {bp}, blocks - {ring[i + 1]};
      var n := ptr[p];
      size, ptr := size[bp := size[bp] + size[n]], ptr[bp := ptr[n]];
      ring, live, blocks := r, l, b;
    }

    /** free(), second half: be taken over by the previous block, or be pointed to by it. */
    method JoinPrevious(bp: int, p: int, ghost i: int) returns (ghost at: int)
      requires HalfFreed(bp, p, i) && bp in ptr && bp in size
      modifies this
      ensures Listed()
      ensures live == old(live) && units == old(units)
      ensures SameSizes(live, old(size), size)
      ensures 0 <= at < |ring| && ring[at] in size && ring[at] <= bp
      ensures bp + old(size)[bp] <= ring[at] + size[ring[at]]
    {
      if p + size[p] == bp {
        JoinedPrevious(bp, p, i);
        at := i;
      } else {
        LooseIsOk(base, ring, size, live, units, blocks, i + 1);
        ptr := ptr[p := bp];
        freep := p;
        at := i + 1;
      }
    }

    method JoinedPrevious(bp: int, p: int, ghost i: int)
      requires HalfFreed(bp, p, i) && bp in ptr && bp in size && p in size && p + size[p] == bp
      modifies this
      ensures Listed()
      ensures live == old(live) && units == old(units) && p !in live
      ensures size == old(size)[p := old(size)[p] + old(size)[bp]]
      ensures i < |ring| && ring[i] == p && p < bp
    {
      PreviousJoined(base, ring, size, live, units, blocks, ptr, i + 1);
      ghost var r, b := Removed(ring, i + 1), blocks - {bp};
      size, ptr := size[p := size[p] + size[bp]], ptr[p := ptr[bp]];
      freep, ring, blocks := p, r, b;
    }

    /** sbrk(n) as seen from here: null, or a region of `n` units disjoint from all units
        obtained before and above `base`. */
    ghost predicate SbrkOk(at: int, n: int, region: set<int>)
      reads this
    {
      at != -1 ==> base < at && IsSpan(region, at, n) && region !! units
    }

    /** morecore(): a new region enters as if it had been live and is freed. */
    method MoreCore(nunits: int, sbrkAt: int, ghost region: set<int>) returns (p: int, ghost at: int)
      requires Listed() && nunits > 0 && SbrkOk(sbrkAt, CoreUnits(nunits), region)
      modifies this
      ensures Listed() && live == old(live)
      ensures p == 0 <==> sbrkAt == -1
      ensures p == 0 ==>
        units == old(units) && ring == old(ring) && size == old(size) && ptr == old(ptr) &&
        freep == old(freep)
      ensures p != 0 ==> p == freep && units == old(units) + region && 0 <= at < |ring| && size[ring[at]] >= nunits
      ensures SameSizes(live, old(size), size)
    {
      at := 0;
      if sbrkAt == -1 {
        RingFacts(base, ring, size, live, units, blocks);
        return 0, 0;
      }
      var nu := CoreUnits(nunits);
      NewRegion(base, ring, size, live, units, blocks, sbrkAt, nu, region);
      ghost var l, b, u := live + {sbrkAt}, blocks + {sbrkAt}, units + region;
      size := size[sbrkAt := nu];
      live, blocks, units := l, b, u;
      at := Free(sbrkAt);
      p := freep;
      assert live == old(live);
    }

    /** The end of malloc(): take the block, or the last `nunits` of it. */
    method Take(prevp: int, p: int, nunits: int, ghost k: int) returns (ap: int)
      requires Listed() && 0 < k < |ring| && ring[k] == p && ring[k - 1] == prevp
      requires 0 < nunits <= size[p]
      modifies this
      ensures Listed() && units == old(units)
      ensures ap > 1 && ap - 1 !in old(live) && live == old(live) + {ap - 1}
      ensures ap - 1 in size && size[ap - 1] == nunits
      ensures SameSizes(old(live), old(size), size)
    {
      RingFacts(base, ring, size, live, units, blocks);
      if size[p] == nunits {
        ap := TakeAll(prevp, p, k);
      } else {
        ap := TakeEnd(prevp, p, nunits, k);
      }
    }

    method TakeAll(prevp: int, block: int, ghost k: int) returns (ap: int)
      requires Listed() && 0 < k < |ring| && ring[k] == block && ring[k - 1] == prevp
      modifies `ptr, `ring, `live, `freep
      ensures Listed()
      ensures live == old(live) + {block} && block !in old(live) && ap == block + 1 && block > 0
    {
      RingFacts(base, ring, size, live, units, blocks);
      TakeWhole(base, ring, size, live, units, blocks, k);
      LinkRemove(ring, ptr, k);
      assert ptr[ring[k]] == Next(ring, k);
      ghost var r, l := Removed(ring, k), live + {block};
      assert r[k - 1] == prevp;
      ptr := ptr[prevp := ptr[block]];
      freep := prevp;
      ring, live := r, l;
      ap := block + 1;
    }

    method TakeEnd(prevp: int, block: int, nunits: int, ghost k: int) returns (ap: int)
      requires Listed() && 0 < k < |ring| && ring[k] == block && ring[k - 1] == prevp
      requires 0 < nunits < size[block]
      modifies `size, `live, `blocks, `freep
      ensures Listed()
      ensures ap == block + old(size)[block] - nunits + 1 && ap - 1 !in old(live) && ap > 1
      ensures live == old(live) + {ap - 1}
      ensures size == old(size)[block := old(size)[block] - nunits][ap - 1 := nunits] && block !in live
    {
      RingFacts(base, ring, size, live, units, blocks);
      TakeTail(base, ring, size, live, units, blocks, k, nunits);
      ghost var l, b := live + {block + (size[block] - nunits)}, blocks + {block + (size[block] - nunits)};
      var p := block;
      size := size[p := size[p] - nunits];
      p := p + size[p];
      size := size[p := nunits];
      freep := prevp;
      live, blocks := l, b;
      ap := p + 1;
    }

    ghost predicate At(k: int, p: int, prevp: int)
      reads this
    {
      0 <= k < |ring| && ring[k] == p && prevp == ring[if k == 0 then |ring| - 1 else k - 1]
    }

    /** What the search keeps: `p` is at ring position `k` on the way back to `freep`. */
    ghost predicate Searching(f: int, k: int, p: int, prevp: int, nunits: int)
      reads this
    {
      && Listed() && At(k, p, prevp) && 0 <= f < |ring| && ring[f] == freep
      && NoneBefore(ring, size, f, k, nunits)
    }

    /** malloc(): next fit from `freep`, carving from the end of the block found, asking
        sbrk at most once.  Null exactly when nothing fits and sbrk fails. */
    method Malloc(nbytes: int, sbrkAt: int, ghost region: set<int>) returns (ap: int, ghost grew: bool)
      requires Valid() && 0 <= nbytes <= MAXREQUEST
      requires SbrkOk(sbrkAt, CoreUnits(Units(nbytes)), region)
      modifies this
      ensures Listed()
      ensures ap == 0 <==> sbrkAt == -1 && !old(Fits(Units(nbytes)))
      ensures grew <==> sbrkAt != -1 && !old(Fits(Units(nbytes)))
      ensures units == old(units) + if grew then region else {}
      ensures ap == 0 ==> live == old(live)
      ensures ap != 0 ==> ap - 1 !in old(live) && live == old(live) + {ap - 1}
      ensures ap != 0 ==> ap - 1 in size && size[ap - 1] == Units(nbytes)
      ensures SameSizes(old(live), old(size), size)
    {
      var nunits := Units(nbytes);
      FirstCall(nunits);
      grew := false;
      ghost var f, k;
      var prevp := freep;
      var p;
      p, f, k := Start(nunits);
      while true
        invariant Searching(f, k, p, prevp, nunits)
        invariant live == old(live) && SameSizes(old(live), old(size), size)
        invariant units == old(units) + if grew then region else {}
        invariant grew ==> sbrkAt != -1 && !old(Fits(nunits)) && Fits(nunits)
        invariant !grew ==> (Fits(nunits) <==> old(Fits(nunits)))
        decreases if grew then 0 else 1, Dist(k, f, |ring|)
      {
        if size[p] >= nunits {
          Found(k, p, prevp, nunits);
          ap := Take(prevp, p, nunits, k);
          return;
        }
        if p == freep {
          Exhausted(f, k, p, prevp, nunits);
          prevp, p, f, k := Grow(nunits, sbrkAt, region);
          if prevp == 0 {
            ap := 0;
            return;
          }
          grew := true;
        } else {
          Onward(f, k, p, prevp, nunits);
          prevp := p;
          p := ptr[p];
          k := if k + 1 < |ring| then k + 1 else 0;
        }
      }
    }

    /** morecore() and the step after it: the search starts over at the new `freep`. */
    method Grow(nunits: int, sbrkAt: int, ghost region: set<int>)
        returns (prevp: int, p: int, ghost f: int, ghost k: int)
      requires Listed() && nunits > 0 && SbrkOk(sbrkAt, CoreUnits(nunits), region)
      modifies this
      ensures Listed() && live == old(live) && SameSizes(live, old(size), size)
      ensures prevp == 0 <==> sbrkAt == -1
      ensures prevp == 0 ==> units == old(units)
      ensures prevp != 0 ==> units == old(units) + region && Fits(nunits) && Searching(f, k, p, prevp, nunits)
    {
      ghost var at;
      prevp, at := MoreCore(nunits, sbrkAt, region);
      p, f, k := 0, 0, 0;
      if prevp != 0 {
        p, f, k := Start(nunits);
      }
    }

    lemma Exhausted(f: int, k: int, p: int, prevp: int, nunits: int)
      requires Searching(f, k, p, prevp, nunits) && p == freep && size[p] < nunits
      ensures !Fits(nunits)
    {
      RingFacts(base, ring, size, live, units, blocks);
      NothingFits(ring, size, f, k, nunits);
    }

    lemma Onward(f: int, k: int, p: int, prevp: int, nunits: int)
      requires Searching(f, k, p, prevp, nunits) && p != freep && size[p] < nunits
      ensures
        var k' := if k + 1 < |ring| then k + 1 else 0;
        && Searching(f, k', ptr[p], p, nunits)
        && 0 <= Dist(k', f, |ring|) < Dist(k, f, |ring|)
    {
      Advance(ring, size, f, k, nunits);
      assert ptr[ring[k]] == Next(ring, k);
    }

    /** The step after `freep`: everything is still ahead. */
    method Start(nunits: int) returns (p: int, ghost f: int, ghost k: int)
      requires Listed()
      ensures Searching(f, k, p, freep, nunits)
    {
      f :| 0 <= f < |ring| && ring[f] == freep;
      k := if f + 1 < |ring| then f + 1 else 0;
      assert ptr[ring[f]] == Next(ring, f);
      p := ptr[freep];
    }

    lemma Found(k: int, p: int, prevp: int, nunits: int)
      requires Listed() && At(k, p, prevp) && p in size && size[p] >= nunits > 0
      ensures k > 0 && ring[k - 1] == prevp && Fits(nunits)
    {
    }

    /** The first call makes the empty ring. */
    method FirstCall(nunits: int)
      requires Valid() && nunits > 0
      modifies `ptr, `size, `freep, `ring
      ensures Listed() && (Fits(nunits) <==> old(Fits(nunits)))
      ensures SameSizes(live, old(size), size)
    {
      if freep == 0 {
        ptr, size, freep := ptr[base := base], size[base := 0], base;
        ring := [base];
      } else {
        RingFacts(base, ring, size, live, units, blocks);
      }
    }
  }
}

/** The block layer and the inode contents of the file system: balloc, bfree, bmap, itrunc,
    readi, writei and the chunked write of a file descriptor.

    Every block of the disk is either metadata, named by exactly one slot of exactly one
    inode, or free. The ghost map `owner` records the slot that names each data block in
    use, and `loose` holds the blocks that an operation has allocated but not yet stored in
    a slot, or has taken out of a slot but not yet freed. */
module FileBlocks {

  import opened Blocks

  const NDIRECT: int := 12
  const MAXFILE: int := 140
  const NSLOT: int := 141

  /** `data` is the number of the first block after the boot block, super block, log, inodes
      and bitmap. */
  datatype Super = Super(size: int, inodestart: int, bmapstart: int, data: int)

  datatype Inode = Inode(device: bool, size: int, addrs: seq<int>)

  /** Slot k of inode inum: its direct addresses, its indirect block (k == NDIRECT), and the
      words of the indirect block after that. */
  datatype Slot = Slot(inum: int, k: int)

  predicate Geometry(sb: Super) {
    && 0 < sb.inodestart <= sb.bmapstart
    && sb.bmapstart + (sb.size + BPB - 1) / BPB <= sb.data
    && sb.data <= sb.size < U32
  }

  predicate DiskOk(sb: Super, disk: seq<Block>) {
    |disk| == sb.size && forall b :: 0 <= b < |disk| ==> IsBlock(disk[b])
  }

  function BBlock(sb: Super, b: int): (n: int)
  {
    b / BPB + sb.bmapstart
  }

  lemma BBlockIsMeta(sb: Super, b: int)
    requires Geometry(sb) && 0 <= b < sb.size
    ensures 0 <= BBlock(sb, b) < sb.data
  {
  }

  predicate Used(sb: Super, disk: seq<Block>, b: int) {
    var n := BBlock(sb, b);
    0 <= n < |disk| && IsBlock(disk[n]) && InUse(disk[n], b % BPB)
  }

  predicate IsSlot(k: int) {
    0 <= k < NSLOT
  }

  /** The block number in slot k, zero if there is none. */
  function Addr(disk: seq<Block>, ino: Inode, k: int): (a: int) {
    if |ino.addrs| != NDIRECT + 1 || !IsSlot(k) then 0
    else if k <= NDIRECT then ino.addrs[k]
    else
      var x := ino.addrs[NDIRECT];
      if 0 < x < |disk| && IsBlock(disk[x]) then Word(disk[x], k - NDIRECT - 1) else 0
  }

  function DataSlot(bn: int): (k: int) {
    if bn < NDIRECT then bn else bn + 1
  }

  predicate Recorded(owner: map<int, Slot>, a: int, s: Slot) {
    a != 0 ==> a in owner && owner[a] == s
  }

  predicate InodesOk(inodes: map<int, Inode>) {
    forall i :: i in inodes ==> |inodes[i].addrs| == NDIRECT + 1
  }

  /** Every address in a slot is recorded as that slot's. */
  ghost predicate Named(disk: seq<Block>, inodes: map<int, Inode>, owner: map<int, Slot>) {
    forall i, k {:trigger Addr(disk, inodes[i], k)} ::
      i in inodes && IsSlot(k) ==> Recorded(owner, Addr(disk, inodes[i], k), Slot(i, k))
  }

  predicate Names(disk: seq<Block>, inodes: map<int, Inode>, s: Slot, a: int) {
    s.inum in inodes && IsSlot(s.k) && Addr(disk, inodes[s.inum], s.k) == a
  }

  /** Every recorded block is a data block, and is in the slot that is recorded for it. */
  ghost predicate Backed(sb: Super, disk: seq<Block>, inodes: map<int, Inode>, owner: map<int, Slot>) {
    forall a :: a in owner ==> sb.data <= a < sb.size && Names(disk, inodes, owner[a], a)
  }

  /** The bitmap marks exactly the metadata, the owned blocks and the loose ones. */
  ghost predicate Marked(sb: Super, disk: seq<Block>, owner: map<int, Slot>, loose: set<int>) {
    forall a {:trigger Used(sb, disk, a)} ::
      0 <= a < sb.size ==> (Used(sb, disk, a) <==> a < sb.data || a in owner || a in loose)
  }

  ghost predicate Loose(sb: Super, owner: map<int, Slot>, loose: set<int>) {
    forall a :: a in loose ==> sb.data <= a < sb.size && a !in owner
  }

  ghost predicate Owned(sb: Super, disk: seq<Block>, inodes: map<int, Inode>, owner: map<int, Slot>, loose: set<int>) {
    && Named(disk, inodes, owner)
    && Backed(sb, disk, inodes, owner)
    && Marked(sb, disk, owner, loose)
    && Loose(sb, owner, loose)
  }

  // ---------- what an ownership map gives ----------

  /** No block is in two slots, a block in a slot is a data block and is not free, and a data
      block that is in use is in some slot. */
  lemma NoSharing(sb: Super, disk: seq<Block>, inodes: map<int, Inode>, owner: map<int, Slot>, i: int, k: int,
      j: int, l: int, a: int)
    requires Geometry(sb) && Owned(sb, disk, inodes, owner, {})
    requires i in inodes && j in inodes && IsSlot(k) && IsSlot(l)
    requires 0 <= a < sb.size
    ensures Addr(disk, inodes[i], k) == Addr(disk, inodes[j], l) != 0 ==> i == j && k == l
    ensures var b := Addr(disk, inodes[i], k);
            b != 0 ==> sb.data <= b < sb.size && Used(sb, disk, b)
    ensures a >= sb.data ==>
              (Used(sb, disk, a) <==> exists s :: Names(disk, inodes, s, a) && a != 0)
  {
    var b := Addr(disk, inodes[i], k);
    assert Recorded(owner, b, Slot(i, k));
    assert Recorded(owner, Addr(disk, inodes[j], l), Slot(j, l));
    assert b != 0 ==> Used(sb, disk, b);
    if a >= sb.data && Used(sb, disk, a) {
      assert Names(disk, inodes, owner[a], a);
    }
    if s :| Names(disk, inodes, s, a) && a != 0 {
      assert Recorded(owner, Addr(disk, inodes[s.inum], s.k), Slot(s.inum, s.k));
    }
  }

  lemma IndexOwned(disk: seq<Block>, inodes: map<int, Inode>, owner: map<int, Slot>, i: int)
    requires Named(disk, inodes, owner) && i in inodes && |inodes[i].addrs| == NDIRECT + 1
    ensures Recorded(owner, inodes[i].addrs[NDIRECT], Slot(i, NDIRECT))
  {
    assert Recorded(owner, Addr(disk, inodes[i], NDIRECT), Slot(i, NDIRECT));
  }

  // ---------- changes of the disk that no indirect block sees ----------

  ghost predicate SameIndexes(disk: seq<Block>, disk': seq<Block>, owner: map<int, Slot>) {
    && |disk'| == |disk|
    && forall a :: a in owner && owner[a].k == NDIRECT && 0 <= a < |disk| ==> disk'[a] == disk[a]
  }

  lemma AddrSame(disk: seq<Block>, disk': seq<Block>, inodes: map<int, Inode>, owner: map<int, Slot>, i: int, k: int)
    requires Named(disk, inodes, owner) && SameIndexes(disk, disk', owner) && i in inodes
    ensures Addr(disk', inodes[i], k) == Addr(disk, inodes[i], k)
  {
    if |inodes[i].addrs| == NDIRECT + 1 {
      IndexOwned(disk, inodes, owner, i);
    }
  }

  lemma FrameNamed(sb: Super, disk: seq<Block>, disk': seq<Block>, inodes: map<int, Inode>, owner: map<int, Slot>)
    requires Named(disk, inodes, owner) && Backed(sb, disk, inodes, owner)
    requires SameIndexes(disk, disk', owner)
    ensures Named(disk', inodes, owner) && Backed(sb, disk', inodes, owner)
  {
    forall i, k | i in inodes && IsSlot(k)
      ensures Recorded(owner, Addr(disk', inodes[i], k), Slot(i, k))
    {
      AddrSame(disk, disk', inodes, owner, i, k);
    }
    forall a | a in owner
      ensures sb.data <= a < sb.size && Names(disk', inodes, owner[a], a)
    {
      assert Names(disk, inodes, owner[a], a);
      AddrSame(disk, disk', inodes, owner, owner[a].inum, owner[a].k);
    }
  }

  // ---------- the bitmap ----------

  /** The bit of block b becomes v; only its bitmap block and b itself may change. */
  ghost predicate Marks(sb: Super, disk: seq<Block>, disk': seq<Block>, b: int, v: bool) {
    && |disk'| == |disk| == sb.size
    && 0 <= b < sb.size
    && (var n := BBlock(sb, b);
        && 0 <= n < sb.size && IsBlock(disk[n])
        && disk'[n] == Mark(disk[n], b % BPB, v)
        && forall c :: 0 <= c < sb.size && c != n && c != b ==> disk'[c] == disk[c])
  }

  lemma UsedMarks(sb: Super, disk: seq<Block>, disk': seq<Block>, b: int, v: bool, a: int)
    requires Geometry(sb) && Marks(sb, disk, disk', b, v)
    requires sb.data <= b < sb.size && 0 <= a < sb.size
    ensures Used(sb, disk', a) == if a == b then v else Used(sb, disk, a)
  {
    BBlockIsMeta(sb, a);
    BBlockIsMeta(sb, b);
    var n := BBlock(sb, b);
    if BBlock(sb, a) == n {
      InUseMark(disk[n], b % BPB, v, a % BPB);
      assert a == b <==> a % BPB == b % BPB by {
        assert a / BPB == b / BPB;
      }
    }
  }

  lemma MarksIndexes(sb: Super, disk: seq<Block>, disk': seq<Block>, inodes: map<int, Inode>, owner: map<int, Slot>,
      b: int, v: bool)
    requires Geometry(sb) && Marks(sb, disk, disk', b, v) && b !in owner
    requires Backed(sb, disk, inodes, owner)
    ensures SameIndexes(disk, disk', owner)
  {
    BBlockIsMeta(sb, b);
  }

  /** Setting the bit of a free block makes that block loose. */
  lemma AllocLoose(sb: Super, disk: seq<Block>, disk': seq<Block>, inodes: map<int, Inode>, owner: map<int, Slot>,
      loose: set<int>, b: int)
    requires Geometry(sb) && Owned(sb, disk, inodes, owner, loose)
    requires Marks(sb, disk, disk', b, true) && !Used(sb, disk, b)
    ensures Owned(sb, disk', inodes, owner, loose + {b}) && b !in loose && sb.data <= b && b !in owner
  {
    MarksIndexes(sb, disk, disk', inodes, owner, b, true);
    FrameNamed(sb, disk, disk', inodes, owner);
    forall a | 0 <= a < sb.size
      ensures Used(sb, disk', a) <==> a < sb.data || a in owner || a in loose + {b}
    {
      UsedMarks(sb, disk, disk', b, true, a);
    }
  }

  /** Clearing the bit of a loose block frees it. */
  lemma FreeLoose(sb: Super, disk: seq<Block>, disk': seq<Block>, inodes: map<int, Inode>, owner: map<int, Slot>,
      loose: set<int>, b: int)
    requires Geometry(sb) && Owned(sb, disk, inodes, owner, loose)
    requires Marks(sb, disk, disk', b, false) && b in loose
    ensures Owned(sb, disk', inodes, owner, loose - {b}) && Used(sb, disk, b)
  {
    MarksIndexes(sb, disk, disk', inodes, owner, b, false);
    FrameNamed(sb, disk, disk', inodes, owner);
    forall a | 0 <= a < sb.size
      ensures Used(sb, disk', a) <==> a < sb.data || a in owner || a in loose - {b}
    {
      UsedMarks(sb, disk, disk', b, false, a);
    }
  }

  // ---------- the slots ----------

  function WithAddr(ino: Inode, k: int, a: int): (ino': Inode)
    requires |ino.addrs| == NDIRECT + 1 && 0 <= k <= NDIRECT
    ensures |ino'.addrs| == NDIRECT + 1
  {
    ino.(addrs := ino.addrs[k := a])
  }

  /** Exactly slot s changes, from one address to another. */
  ghost predicate Changes(disk: seq<Block>, inodes: map<int, Inode>, disk': seq<Block>, inodes': map<int, Inode>,
      s: Slot, a: int) {
    && inodes'.Keys == inodes.Keys && s.inum in inodes && IsSlot(s.k)
    && Addr(disk', inodes'[s.inum], s.k) == a
    && forall i, k {:trigger Addr(disk', inodes'[i], k)} ::
         i in inodes && IsSlot(k) && Slot(i, k) != s ==> Addr(disk', inodes'[i], k) == Addr(disk, inodes[i], k)
  }

  /** A loose block stored in an empty slot is owned by it. */
  lemma StoreNamed(sb: Super, disk: seq<Block>, inodes: map<int, Inode>, disk': seq<Block>,
      inodes': map<int, Inode>, owner: map<int, Slot>, owner': map<int, Slot>, s: Slot, b: int)
    requires Named(disk, inodes, owner) && Backed(sb, disk, inodes, owner)
    requires Changes(disk, inodes, disk', inodes', s, b) && Addr(disk, inodes[s.inum], s.k) == 0
    requires b != 0 && b !in owner && sb.data <= b < sb.size && sb.data > 0 && owner' == owner[b := s]
    ensures Named(disk', inodes', owner') && Backed(sb, disk', inodes', owner')
  {
    forall i, k | i in inodes' && IsSlot(k)
      ensures Recorded(owner', Addr(disk', inodes'[i], k), Slot(i, k))
    {
      if Slot(i, k) != s {
        assert Recorded(owner, Addr(disk, inodes[i], k), Slot(i, k));
      }
    }
    forall a | a in owner'
      ensures sb.data <= a < sb.size && Names(disk', inodes', owner'[a], a)
    {
      if a != b {
        assert Names(disk, inodes, owner[a], a);
        assert owner[a] != s;
      }
    }
  }

  /** The block of a slot that is emptied becomes loose. */
  lemma DetachNamed(sb: Super, disk: seq<Block>, inodes: map<int, Inode>, inodes': map<int, Inode>,
      owner: map<int, Slot>, owner': map<int, Slot>, s: Slot, b: int)
    requires Named(disk, inodes, owner) && Backed(sb, disk, inodes, owner)
    requires Changes(disk, inodes, disk, inodes', s, 0) && Addr(disk, inodes[s.inum], s.k) == b
    requires b in owner && sb.data > 0 && owner' == owner - {b}
    ensures Named(disk, inodes', owner') && Backed(sb, disk, inodes', owner')
  {
    assert Recorded(owner, Addr(disk, inodes[s.inum], s.k), s);
    forall i, k | i in inodes' && IsSlot(k)
      ensures Recorded(owner', Addr(disk, inodes'[i], k), Slot(i, k))
    {
      assert Recorded(owner, Addr(disk, inodes[i], k), Slot(i, k));
    }
    forall a | a in owner'
      ensures sb.data <= a < sb.size && Names(disk, inodes', owner'[a], a)
    {
      assert Names(disk, inodes, owner[a], a);
    }
  }

  lemma StoreOwned(sb: Super, disk: seq<Block>, inodes: map<int, Inode>, disk': seq<Block>,
      inodes': map<int, Inode>, owner: map<int, Slot>, s: Slot, b: int)
    requires Geometry(sb) && Owned(sb, disk, inodes, owner, {b})
    requires Changes(disk, inodes, disk', inodes', s, b) && Addr(disk, inodes[s.inum], s.k) == 0
    requires forall a :: 0 <= a < sb.size ==> Used(sb, disk', a) == Used(sb, disk, a)
    ensures Owned(sb, disk', inodes', owner[b := s], {})
  {
    assert b in {b};
    StoreNamed(sb, disk, inodes, disk', inodes', owner, owner[b := s], s, b);
  }

  lemma ChangeAddr(disk: seq<Block>, inodes: map<int, Inode>, inodes': map<int, Inode>, i: int, k: int, a: int)
    requires i in inodes && |inodes[i].addrs| == NDIRECT + 1 && 0 <= k <= NDIRECT
    requires inodes' == inodes[i := WithAddr(inodes[i], k, a)]
    requires k == NDIRECT ==> inodes[i].addrs[k] == 0 && 0 < a < |disk| && disk[a] == ZeroBlock()
    ensures Changes(disk, inodes, disk, inodes', Slot(i, k), a)
  {
    forall j, l | j in inodes && IsSlot(l) && Slot(j, l) != Slot(i, k)
      ensures Addr(disk, inodes'[j], l) == Addr(disk, inodes[j], l)
    {
      if k == NDIRECT && l > NDIRECT {
        WordZero(l - NDIRECT - 1);
      }
    }
  }

  lemma ChangeWord(sb: Super, disk: seq<Block>, inodes: map<int, Inode>, disk': seq<Block>, owner: map<int, Slot>,
      i: int, x: int, w: int, a: int)
    requires Named(disk, inodes, owner) && InodesOk(inodes) && i in inodes
    requires inodes[i].addrs[NDIRECT] == x && 0 < x < |disk| && IsBlock(disk[x]) && 0 <= w < NINDIRECT && 0 <= a < U32
    requires disk' == disk[x := PutWord(disk[x], w, a)]
    ensures Changes(disk, inodes, disk', inodes, Slot(i, NDIRECT + 1 + w), a)
  {
    WordPut(disk[x], w, a, w);
    IndexOwned(disk, inodes, owner, i);
    forall j, l | j in inodes && IsSlot(l) && Slot(j, l) != Slot(i, NDIRECT + 1 + w)
      ensures Addr(disk', inodes[j], l) == Addr(disk, inodes[j], l)
    {
      IndexOwned(disk, inodes, owner, j);
      if j == i && l > NDIRECT {
        WordPut(disk[x], w, a, l - NDIRECT - 1);
      }
    }
  }

  /** Changing a data block leaves the bitmap alone. */
  lemma UsedData(sb: Super, disk: seq<Block>, disk': seq<Block>, x: int, blk: Block)
    requires Geometry(sb) && |disk| == sb.size && sb.data <= x < sb.size && disk' == disk[x := blk]
    ensures forall a :: 0 <= a < sb.size ==> Used(sb, disk', a) == Used(sb, disk, a)
  {
    forall a | 0 <= a < sb.size
      ensures Used(sb, disk', a) == Used(sb, disk, a)
    {
      BBlockIsMeta(sb, a);
    }
  }

  // ---------- contents ----------

  function DataAddr(disk: seq<Block>, ino: Inode, bn: int): (a: int) {
    Addr(disk, ino, DataSlot(bn))
  }

  function ByteOf(disk: seq<Block>, a: int, q: int): (c: int) {
    if 0 < a < |disk| && 0 <= q < |disk[a].bytes| then disk[a].bytes[q] else 0
  }

  /** Byte p of a file. */
  function DataByte(disk: seq<Block>, ino: Inode, p: int): (c: int) {
    ByteOf(disk, DataAddr(disk, ino, p / BSIZE), p % BSIZE)
  }

  /** A file is the flat sequence of its first size bytes. */
  function Contents(disk: seq<Block>, ino: Inode): (c: seq<int>)
    requires 0 <= ino.size
    ensures |c| == ino.size
  {
    seq(ino.size, p requires 0 <= p => DataByte(disk, ino, p))
  }

  /** Every block below the file's size has an address. */
  ghost predicate Mapped(disk: seq<Block>, ino: Inode) {
    forall bn {:trigger DataAddr(disk, ino, bn)} :: 0 <= bn && bn * BSIZE < ino.size ==> DataAddr(disk, ino, bn) != 0
  }

  ghost predicate AllMapped(disk: seq<Block>, inodes: map<int, Inode>) {
    forall i :: i in inodes ==> 0 <= inodes[i].size <= MAXFILE * BSIZE && Mapped(disk, inodes[i])
  }

  /** An operation on inode i leaves the other inodes and their blocks alone. */
  ghost predicate KeepsOthers(disk: seq<Block>, inodes: map<int, Inode>, owner: map<int, Slot>, disk': seq<Block>,
      inodes': map<int, Inode>, owner': map<int, Slot>, i: int)
  {
    && |disk'| == |disk| && inodes'.Keys == inodes.Keys
    && (forall j :: j in inodes && j != i ==> inodes'[j] == inodes[j])
    && (forall a :: a in owner && owner[a].inum != i ==> a in owner' && owner'[a] == owner[a])
    && (forall a :: a in owner && owner[a].inum != i && 0 <= a < |disk| ==> disk'[a] == disk[a])
  }

  lemma KeepsOthersTwice(d0: seq<Block>, n0: map<int, Inode>, o0: map<int, Slot>, d1: seq<Block>,
      n1: map<int, Inode>, o1: map<int, Slot>, d2: seq<Block>, n2: map<int, Inode>, o2: map<int, Slot>, i: int)
    requires KeepsOthers(d0, n0, o0, d1, n1, o1, i) && KeepsOthers(d1, n1, o1, d2, n2, o2, i)
    ensures KeepsOthers(d0, n0, o0, d2, n2, o2, i)
  {
  }

  lemma OthersAddr(disk: seq<Block>, inodes: map<int, Inode>, owner: map<int, Slot>, disk': seq<Block>,
      inodes': map<int, Inode>, owner': map<int, Slot>, i: int, j: int, k: int)
    requires Named(disk, inodes, owner) && KeepsOthers(disk, inodes, owner, disk', inodes', owner', i)
    requires j in inodes && j != i
    ensures var a := Addr(disk, inodes[j], k);
            && Addr(disk', inodes'[j], k) == a
            && (0 < a < |disk| ==> disk'[a] == disk[a])
  {
    if |inodes[j].addrs| == NDIRECT + 1 && IsSlot(k) {
      IndexOwned(disk, inodes, owner, j);
      assert Recorded(owner, Addr(disk, inodes[j], k), Slot(j, k));
    }
  }

  /** Every other file keeps its contents. */
  lemma OthersContents(disk: seq<Block>, inodes: map<int, Inode>, owner: map<int, Slot>, disk': seq<Block>,
      inodes': map<int, Inode>, owner': map<int, Slot>, i: int, j: int)
    requires Named(disk, inodes, owner) && KeepsOthers(disk, inodes, owner, disk', inodes', owner', i)
    requires j in inodes && j != i && 0 <= inodes[j].size
    ensures inodes'[j] == inodes[j] && Contents(disk', inodes'[j]) == Contents(disk, inodes[j])
    ensures Mapped(disk, inodes[j]) ==> Mapped(disk', inodes'[j])
  {
    var c, c' := Contents(disk, inodes[j]), Contents(disk', inodes'[j]);
    forall p | 0 <= p < |c|
      ensures c'[p] == c[p]
    {
      OthersAddr(disk, inodes, owner, disk', inodes', owner', i, j, DataSlot(p / BSIZE));
    }
    forall bn | 0 <= bn && bn * BSIZE < inodes[j].size && Mapped(disk, inodes[j])
      ensures DataAddr(disk', inodes'[j], bn) != 0
    {
      assert DataAddr(disk, inodes[j], bn) != 0;
      OthersAddr(disk, inodes, owner, disk', inodes', owner', i, j, DataSlot(bn));
    }
  }

  predicate KeepsIndex(ino: Inode, ino': Inode) {
    |ino.addrs| == NDIRECT + 1 ==>
      |ino'.addrs| == NDIRECT + 1 && (ino.addrs[NDIRECT] != 0 ==> ino'.addrs[NDIRECT] == ino.addrs[NDIRECT])
  }

  /** Every block of the file that had an address keeps it, and keeps its bytes. */
  ghost predicate KeepsData(disk: seq<Block>, ino: Inode, disk': seq<Block>, ino': Inode) {
    && ino'.size == ino.size && ino'.device == ino.device
    && |disk'| == |disk|
    && KeepsIndex(ino, ino')
    && forall bn {:trigger DataAddr(disk, ino, bn)} {:trigger DataAddr(disk', ino', bn)} ::
         var a := DataAddr(disk, ino, bn);
         a != 0 ==> DataAddr(disk', ino', bn) == a && (0 < a < |disk| ==> disk'[a] == disk[a])
  }

  // ---------- allocating the block of a slot ----------

  /** Block b was free in disk; in disk' it is in use and zeroed. */
  ghost predicate Allocates(sb: Super, disk: seq<Block>, disk': seq<Block>, b: int) {
    Marks(sb, disk, disk', b, true) && disk'[b] == ZeroBlock() && !Used(sb, disk, b)
  }

  /** Blocks that an inode owns survive an allocation. */
  lemma AllocKeeps(sb: Super, disk: seq<Block>, disk': seq<Block>, inodes: map<int, Inode>, owner: map<int, Slot>,
      b: int, a: int)
    requires Geometry(sb) && Owned(sb, disk, inodes, owner, {}) && Allocates(sb, disk, disk', b) && a in owner
    ensures sb.data <= a < sb.size && a != b && disk'[a] == disk[a]
  {
    BBlockIsMeta(sb, b);
    assert Used(sb, disk, a);
  }

  lemma StoreKeepsOthers(sb: Super, disk: seq<Block>, inodes: map<int, Inode>, owner: map<int, Slot>,
      d1: seq<Block>, disk': seq<Block>, inodes': map<int, Inode>, s: Slot, b: int)
    requires Geometry(sb) && Owned(sb, disk, inodes, owner, {}) && Allocates(sb, disk, d1, b)
    requires inodes'.Keys == inodes.Keys
    requires forall j :: j in inodes && j != s.inum ==> inodes'[j] == inodes[j]
    requires |disk'| == sb.size
    requires forall a :: 0 <= a < sb.size && (a in owner ==> owner[a].inum != s.inum) ==> disk'[a] == d1[a]
    ensures KeepsOthers(disk, inodes, owner, disk', inodes', owner[b := s], s.inum)
  {
    forall a | a in owner
      ensures sb.data <= a < sb.size && a != b && d1[a] == disk[a]
    {
      AllocKeeps(sb, disk, d1, inodes, owner, b, a);
    }
  }

  lemma StoreKeepsData(sb: Super, disk: seq<Block>, inodes: map<int, Inode>, owner: map<int, Slot>, d1: seq<Block>,
      disk': seq<Block>, inodes': map<int, Inode>, s: Slot, b: int)
    requires Geometry(sb) && Owned(sb, disk, inodes, owner, {}) && Allocates(sb, disk, d1, b)
    requires Changes(d1, inodes, disk', inodes', s, b) && Addr(disk, inodes[s.inum], s.k) == 0
    requires inodes'[s.inum].size == inodes[s.inum].size && inodes'[s.inum].device == inodes[s.inum].device
    requires |inodes'[s.inum].addrs| == |inodes[s.inum].addrs|
    requires |disk'| == sb.size
    requires forall a :: 0 <= a < sb.size && (a in owner ==> owner[a].k != NDIRECT) ==> disk'[a] == d1[a]
    ensures KeepsData(disk, inodes[s.inum], disk', inodes'[s.inum])
  {
    var i := s.inum;
    var ino, ino' := inodes[i], inodes'[i];
    assert KeepsIndex(ino, ino') by {
      assert Slot(i, NDIRECT) != s ==> Addr(disk', inodes'[i], NDIRECT) == Addr(d1, inodes[i], NDIRECT);
    }
    forall bn
      ensures var a := DataAddr(disk, ino, bn);
        a != 0 ==> DataAddr(disk', ino', bn) == a && (0 < a < |disk| ==> disk'[a] == disk[a])
    {
      var a := DataAddr(disk, ino, bn);
      var k := DataSlot(bn);
      if a != 0 {
        assert Recorded(owner, Addr(disk, inodes[i], k), Slot(i, k));
        AllocKeeps(sb, disk, d1, inodes, owner, b, a);
        assert Addr(d1, inodes[i], k) == a by {
          MarksIndexes(sb, disk, d1, inodes, owner, b, true);
          AddrSame(disk, d1, inodes, owner, i, k);
        }
        assert Slot(i, k) != s;
        assert Addr(disk', inodes'[i], k) == a;
      }
    }
  }

  predicate SameSlot(disk: seq<Block>, ino: Inode, disk': seq<Block>, ino': Inode, k: int) {
    Addr(disk', ino', k) == Addr(disk, ino, k)
  }

  /** No slot of the inode but k changes. */
  ghost predicate OneSlot(disk: seq<Block>, ino: Inode, disk': seq<Block>, ino': Inode, k: int) {
    forall l :: l != k ==> SameSlot(disk, ino, disk', ino', l)
  }

  lemma StoreOneSlot(sb: Super, disk: seq<Block>, inodes: map<int, Inode>, owner: map<int, Slot>, d1: seq<Block>,
      disk': seq<Block>, inodes': map<int, Inode>, s: Slot, b: int)
    requires Geometry(sb) && Owned(sb, disk, inodes, owner, {}) && Allocates(sb, disk, d1, b) && b !in owner
    requires Changes(d1, inodes, disk', inodes', s, b)
    ensures OneSlot(disk, inodes[s.inum], disk', inodes'[s.inum], s.k)
  {
    var i := s.inum;
    MarksIndexes(sb, disk, d1, inodes, owner, b, true);
    forall l | l != s.k
      ensures SameSlot(disk, inodes[i], disk', inodes'[i], l)
    {
      AddrSame(disk, d1, inodes, owner, i, l);
      assert Slot(i, l) != s;
    }
  }

  /** Storing a fresh block in an empty address of the inode. */
  lemma PlaceAddr(sb: Super, disk: seq<Block>, inodes: map<int, Inode>, owner: map<int, Slot>, disk': seq<Block>,
      inodes': map<int, Inode>, i: int, k: int, b: int)
    requires Geometry(sb) && Owned(sb, disk, inodes, owner, {}) && Allocates(sb, disk, disk', b) && InodesOk(inodes)
    requires i in inodes && 0 <= k <= NDIRECT && inodes[i].addrs[k] == 0
    requires inodes' == inodes[i := WithAddr(inodes[i], k, b)]
    ensures Owned(sb, disk', inodes', owner[b := Slot(i, k)], {}) && sb.data <= b
    ensures KeepsOthers(disk, inodes, owner, disk', inodes', owner[b := Slot(i, k)], i)
    ensures KeepsData(disk, inodes[i], disk', inodes'[i]) && OneSlot(disk, inodes[i], disk', inodes'[i], k)
  {
    AllocLoose(sb, disk, disk', inodes, owner, {}, b);
    assert {} + {b} == {b};
    ChangeAddr(disk', inodes, inodes', i, k, b);
    StoreOneSlot(sb, disk, inodes, owner, disk', disk', inodes', Slot(i, k), b);
    StoreOwned(sb, disk', inodes, disk', inodes', owner, Slot(i, k), b);
    StoreKeepsOthers(sb, disk, inodes, owner, disk', disk', inodes', Slot(i, k), b);
    StoreKeepsData(sb, disk, inodes, owner, disk', disk', inodes', Slot(i, k), b);
  }

  /** Storing a fresh block in an empty word of the inode's indirect block. */
  lemma PlaceWord(sb: Super, disk: seq<Block>, inodes: map<int, Inode>, owner: map<int, Slot>, d1: seq<Block>,
      disk': seq<Block>, i: int, x: int, w: int, b: int)
    requires Geometry(sb) && Owned(sb, disk, inodes, owner, {}) && Allocates(sb, disk, d1, b) && InodesOk(inodes)
    requires i in inodes && inodes[i].addrs[NDIRECT] == x != 0 && 0 <= w < NINDIRECT &&
      Addr(disk, inodes[i], NDIRECT + 1 + w) == 0
    requires 0 <= x < sb.size && IsBlock(d1[x]) && disk' == d1[x := PutWord(d1[x], w, b)]
    ensures Owned(sb, disk', inodes, owner[b := Slot(i, NDIRECT + 1 + w)], {}) && sb.data <= b
    ensures KeepsOthers(disk, inodes, owner, disk', inodes, owner[b := Slot(i, NDIRECT + 1 + w)], i)
    ensures KeepsData(disk, inodes[i], disk', inodes[i])
    ensures OneSlot(disk, inodes[i], disk', inodes[i], NDIRECT + 1 + w)
  {
    var s := Slot(i, NDIRECT + 1 + w);
    AllocLoose(sb, disk, d1, inodes, owner, {}, b);
    assert {} + {b} == {b};
    IndexOwned(disk, inodes, owner, i);
    AllocKeeps(sb, disk, d1, inodes, owner, b, x);
    ChangeWord(sb, d1, inodes, disk', owner, i, x, w, b);
    StoreOneSlot(sb, disk, inodes, owner, d1, disk', inodes, s, b);
    UsedData(sb, d1, disk', x, PutWord(d1[x], w, b));
    assert Addr(d1, inodes[i], s.k) == 0 by {
      MarksIndexes(sb, disk, d1, inodes, owner, b, true);
      AddrSame(disk, d1, inodes, owner, i, s.k);
    }
    StoreOwned(sb, d1, inodes, disk', inodes, owner, s, b);
    StoreKeepsOthers(sb, disk, inodes, owner, d1, disk', inodes, s, b);
    StoreKeepsData(sb, disk, inodes, owner, d1, disk', inodes, s, b);
  }

  // ---------- writing bytes ----------

  function Patch(b: Block, q: int, src: seq<int>): (b': Block)
    requires IsBlock(b) && 0 <= q <= q + |src| <= BSIZE
    ensures IsBlock(b')
  {
    Block(b.bytes[..q] + src + b.bytes[q + |src|..])
  }

  /** Writing into a data block of inode i. */
  lemma WriteOwned(sb: Super, disk: seq<Block>, inodes: map<int, Inode>, owner: map<int, Slot>, disk': seq<Block>,
      i: int, a: int, blk: Block)
    requires Geometry(sb) && Owned(sb, disk, inodes, owner, {}) && |disk| == sb.size
    requires a in owner && owner[a].inum == i && owner[a].k != NDIRECT && disk' == disk[a := blk]
    ensures Owned(sb, disk', inodes, owner, {})
    ensures KeepsOthers(disk, inodes, owner, disk', inodes, owner, i)
    ensures forall k :: i in inodes ==> Addr(disk', inodes[i], k) == Addr(disk, inodes[i], k)
  {
    UsedData(sb, disk, disk', a, blk);
    FrameNamed(sb, disk, disk', inodes, owner);
    forall k | i in inodes
      ensures Addr(disk', inodes[i], k) == Addr(disk, inodes[i], k)
    {
      AddrSame(disk, disk', inodes, owner, i, k);
    }
  }

  /** Byte p after bytes q.. of the file's block bn are replaced by src. */
  lemma WriteByte(sb: Super, disk: seq<Block>, inodes: map<int, Inode>, owner: map<int, Slot>, disk': seq<Block>,
      i: int, bn: int, q: int, src: seq<int>, p: int)
    requires Geometry(sb) && Owned(sb, disk, inodes, owner, {}) && DiskOk(sb, disk)
    requires i in inodes && 0 <= bn < MAXFILE && 0 <= p < MAXFILE * BSIZE
    requires 0 <= q <= q + |src| <= BSIZE
    requires var a := DataAddr(disk, inodes[i], bn);
             0 < a < sb.size && disk' == disk[a := Patch(disk[a], q, src)]
    requires forall k :: Addr(disk', inodes[i], k) == Addr(disk, inodes[i], k)
    ensures var off := bn * BSIZE + q;
            DataByte(disk', inodes[i], p) == if off <= p < off +
                |src| then src[p - off] else DataByte(disk, inodes[i], p)
  {
    var a := DataAddr(disk, inodes[i], bn);
    var c := DataAddr(disk, inodes[i], p / BSIZE);
    assert DataAddr(disk', inodes[i], p / BSIZE) == c;
    assert Recorded(owner, Addr(disk, inodes[i], DataSlot(bn)), Slot(i, DataSlot(bn)));
    assert Recorded(owner, Addr(disk, inodes[i], DataSlot(p / BSIZE)), Slot(i, DataSlot(p / BSIZE)));
    assert c == a ==> p / BSIZE == bn;
    assert p == p / BSIZE * BSIZE + p % BSIZE;
  }

  // ---------- emptying slots ----------

  /** Taking a direct address out of an inode makes its block loose. */
  lemma DropOwned(sb: Super, disk: seq<Block>, inodes: map<int, Inode>, inodes': map<int, Inode>,
      owner: map<int, Slot>, i: int, k: int, b: int)
    requires Geometry(sb) && Owned(sb, disk, inodes, owner, {}) && InodesOk(inodes)
    requires i in inodes && 0 <= k < NDIRECT && b == inodes[i].addrs[k] != 0
    requires inodes' == inodes[i := WithAddr(inodes[i], k, 0)]
    ensures b in owner && owner[b] == Slot(i, k) && sb.data <= b < sb.size
    ensures Owned(sb, disk, inodes', owner - {b}, {b})
  {
    assert Recorded(owner, Addr(disk, inodes[i], k), Slot(i, k));
    ChangeAddr(disk, inodes, inodes', i, k, 0);
    DetachNamed(sb, disk, inodes, inodes', owner, owner - {b}, Slot(i, k), b);
  }

  /** The blocks that words w.. of an indirect block name. */
  function Words(x: Block, w: int): (s: set<int>)
    requires IsBlock(x) && 0 <= w
  {
    set v | w <= v < NINDIRECT && Word(x, v) != 0 :: Word(x, v)
  }

  /** An indirect block names no block twice, and does not name itself. */
  ghost predicate DistinctWords(blk: Block, x: int)
    requires IsBlock(blk)
  {
    && (forall v :: 0 <= v < NINDIRECT && Word(blk, v) != 0 ==> Word(blk, v) != x)
    && forall v, w :: 0 <= v < w < NINDIRECT && Word(blk, v) != 0 ==> Word(blk, v) != Word(blk, w)
  }

  lemma IndexDistinct(sb: Super, disk: seq<Block>, inodes: map<int, Inode>, owner: map<int, Slot>, i: int, x: int)
    requires Owned(sb, disk, inodes, owner, {}) && InodesOk(inodes) && i in inodes && x == inodes[i].addrs[NDIRECT]
    requires 0 < x < |disk| && IsBlock(disk[x])
    ensures DistinctWords(disk[x], x)
  {
    IndexOwned(disk, inodes, owner, i);
    forall v | 0 <= v < NINDIRECT
      ensures Recorded(owner, Word(disk[x], v), Slot(i, NDIRECT + 1 + v))
    {
      assert Recorded(owner, Addr(disk, inodes[i], NDIRECT + 1 + v), Slot(i, NDIRECT + 1 + v));
    }
  }

  lemma WordsStep(blk: Block, x: int, w: int)
    requires IsBlock(blk) && DistinctWords(blk, x) && 0 <= w < NINDIRECT
    ensures Word(blk, w) == 0 ==> Words(blk, w) == Words(blk, w + 1)
    ensures Word(blk, w) != 0 ==> Word(blk, w) in Words(blk, w) && Word(blk, w) != x
    ensures Word(blk, w) != 0 ==> {x} + Words(blk, w) - {Word(blk, w)} == {x} + Words(blk, w + 1)
  {
    assert Words(blk, w) == Words(blk, w + 1) + (if Word(blk, w) != 0 then {Word(blk, w)} else {});
    assert Word(blk, w) != 0 ==> Word(blk, w) !in Words(blk, w + 1);
  }

  /** Taking the indirect block out of an inode makes it and all it names loose. */
  lemma DropIndexNamed(sb: Super, disk: seq<Block>, inodes: map<int, Inode>, inodes': map<int, Inode>,
      owner: map<int, Slot>, i: int, x: int, l: set<int>)
    requires Geometry(sb) && Owned(sb, disk, inodes, owner, {}) && InodesOk(inodes) && DiskOk(sb, disk)
    requires i in inodes && x == inodes[i].addrs[NDIRECT] && 0 < x < |disk|
    requires inodes' == inodes[i := WithAddr(inodes[i], NDIRECT, 0)]
    requires l == {x} + Words(disk[x], 0)
    ensures forall a :: a in l ==> a in owner && owner[a].inum == i && owner[a].k >= NDIRECT
    ensures Named(disk, inodes', owner - l) && Backed(sb, disk, inodes', owner - l)
  {
    forall a | a in l
      ensures a in owner && owner[a].inum == i && owner[a].k >= NDIRECT
    {
      IndexOwned(disk, inodes, owner, i);
      if a != x {
        var v :| 0 <= v < NINDIRECT && a == Word(disk[x], v) && a != 0;
        assert Recorded(owner, Addr(disk, inodes[i], NDIRECT + 1 + v), Slot(i, NDIRECT + 1 + v));
      }
    }
    forall a | a in owner && owner[a].inum == i && owner[a].k >= NDIRECT
      ensures a in l
    {
      assert Names(disk, inodes, owner[a], a);
      if owner[a].k > NDIRECT {
        assert a == Word(disk[x], owner[a].k - NDIRECT - 1);
      }
    }
    forall j, k | j in inodes' && IsSlot(k)
      ensures Recorded(owner - l, Addr(disk, inodes'[j], k), Slot(j, k))
    {
      assert Recorded(owner, Addr(disk, inodes[j], k), Slot(j, k));
    }
    forall a | a in owner - l
      ensures sb.data <= a < sb.size && Names(disk, inodes', (owner - l)[a], a)
    {
      assert Names(disk, inodes, owner[a], a);
    }
  }

  lemma DropIndexOwned(sb: Super, disk: seq<Block>, inodes: map<int, Inode>, inodes': map<int, Inode>,
      owner: map<int, Slot>, i: int, x: int, l: set<int>)
    requires Geometry(sb) && Owned(sb, disk, inodes, owner, {}) && InodesOk(inodes) && DiskOk(sb, disk)
    requires i in inodes && x == inodes[i].addrs[NDIRECT] && 0 < x < |disk|
    requires inodes' == inodes[i := WithAddr(inodes[i], NDIRECT, 0)]
    requires l == {x} + Words(disk[x], 0)
    ensures forall a :: a in l ==> a in owner && owner[a].inum == i
    ensures Owned(sb, disk, inodes', owner - l, l)
  {
    DropIndexNamed(sb, disk, inodes, inodes', owner, i, x, l);
  }

  ghost predicate SameData(sb: Super, disk: seq<Block>, disk': seq<Block>) {
    |disk'| == |disk| && forall a :: 0 <= a < |disk| && sb.data <= a ==> disk'[a] == disk[a]
  }

  lemma SameDataKeeps(sb: Super, disk: seq<Block>, inodes: map<int, Inode>, owner: map<int, Slot>,
      disk': seq<Block>, inodes': map<int, Inode>, owner': map<int, Slot>, i: int)
    requires Backed(sb, disk, inodes, owner) && SameData(sb, disk, disk')
    requires inodes'.Keys == inodes.Keys && forall j :: j in inodes && j != i ==> inodes'[j] == inodes[j]
    requires forall a :: a in owner && owner[a].inum != i ==> a in owner' && owner'[a] == owner[a]
    ensures KeepsOthers(disk, inodes, owner, disk', inodes', owner', i)
  {
  }

  lemma SlotRecorded(disk: seq<Block>, inodes: map<int, Inode>, owner: map<int, Slot>, i: int, k: int)
    requires Named(disk, inodes, owner) && i in inodes && IsSlot(k)
    ensures Recorded(owner, Addr(disk, inodes[i], k), Slot(i, k))
  {
  }

  /** When inode i ends with no block, every block it had is free. */
  lemma Reclaimed(sb: Super, disk: seq<Block>, inodes: map<int, Inode>, owner: map<int, Slot>, disk': seq<Block>,
      inodes': map<int, Inode>, owner': map<int, Slot>, i: int, a: int)
    requires Geometry(sb) && Named(disk, inodes, owner) && Backed(sb, disk, inodes, owner)
    requires Owned(sb, disk', inodes', owner', {})
    requires KeepsOthers(disk, inodes, owner, disk', inodes', owner', i)
    requires forall k {:trigger Addr(disk', inodes'[i], k)} :: i in inodes' && IsSlot(k) ==>
      Addr(disk', inodes'[i], k) == 0
    requires a in owner && owner[a].inum == i
    ensures !Used(sb, disk', a)
  {
    assert sb.data <= a < sb.size;
    if a in owner' {
      var s := owner'[a];
      assert Names(disk', inodes', s, a);
      assert s.inum != i;
      OthersAddr(disk, inodes, owner, disk', inodes', owner', i, s.inum, s.k);
      SlotRecorded(disk, inodes, owner, s.inum, s.k);
    }
  }
}

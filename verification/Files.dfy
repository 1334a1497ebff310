/** The operations of the file system's block and inode layers, on a disk as the buffer cache
    and the current transaction show it. */
module Files {

  import opened Blocks
  import opened FileBlocks

  const MAXOPBLOCKS: int := 10

  datatype Address = At(block: int) | OutOfBlocks | OutOfRange

  /** What a read or a write comes to: a byte count, the error return, a call of the device
      driver that owns the inode, or the panic of an allocation on a full disk. */
  datatype Outcome = Count(n: int) | Failed | Driver | Panic

  ghost predicate MetaUsed(sb: Super, disk: seq<Block>) {
    forall a :: 0 <= a < sb.data && a < sb.size ==> Used(sb, disk, a)
  }

  ghost predicate DiskFull(sb: Super, disk: seq<Block>) {
    forall a :: 0 <= a < sb.size ==> Used(sb, disk, a)
  }

  /** How many of the first n blocks are not in use. */
  function FreeBelow(sb: Super, disk: seq<Block>, n: int): (f: int)
    ensures f >= 0
    decreases n
  {
    if n <= 0 then 0 else FreeBelow(sb, disk, n - 1) + if Used(sb, disk, n - 1) then 0 else 1
  }

  /** How many blocks of the disk are not in use. */
  function Free(sb: Super, disk: seq<Block>): (f: int)
    ensures f >= 0
  {
    FreeBelow(sb, disk, sb.size)
  }

  /** How many blocks it takes to give block bn of a file an address. */
  function Needed(disk: seq<Block>, ino: Inode, bn: int): (n: int)
    requires |ino.addrs| == NDIRECT + 1
  {
    if DataAddr(disk, ino, bn) != 0 then 0
    else if bn < NDIRECT || ino.addrs[NDIRECT] != 0 then 1
    else 2
  }

  predicate SameAddr(disk: seq<Block>, ino: Inode, disk': seq<Block>, ino': Inode, bn: int) {
    DataAddr(disk', ino', bn) == DataAddr(disk, ino, bn)
  }

  /** Block bn of the file may have got an address, and before it the indirect block; no other
      block of the file has. */
  ghost predicate GainsOnly(disk: seq<Block>, ino: Inode, disk': seq<Block>, ino': Inode, bn: int) {
    && |ino.addrs| == |ino'.addrs| == NDIRECT + 1
    && (forall b :: b != bn ==> SameAddr(disk, ino, disk', ino', b))
    && (ino'.addrs[NDIRECT] == 0 <==> ino.addrs[NDIRECT] == 0 && bn < NDIRECT)
  }

  lemma GainsNone(disk: seq<Block>, ino: Inode, bn: int)
    requires |ino.addrs| == NDIRECT + 1 && DataAddr(disk, ino, bn) != 0
    ensures GainsOnly(disk, ino, disk, ino, bn)
  {
  }

  lemma GainsOne(disk: seq<Block>, ino: Inode, disk': seq<Block>, ino': Inode, bn: int)
    requires |ino.addrs| == |ino'.addrs| == NDIRECT + 1 && 0 <= bn && OneSlot(disk, ino, disk', ino', DataSlot(bn))
    requires bn < NDIRECT || ino.addrs[NDIRECT] != 0
    ensures GainsOnly(disk, ino, disk', ino', bn)
  {
    assert SameSlot(disk, ino, disk', ino', NDIRECT);
    forall b | b != bn
      ensures SameAddr(disk, ino, disk', ino', b)
    {
      assert SameSlot(disk, ino, disk', ino', DataSlot(b));
    }
  }

  /** First the indirect block, then the block it names. */
  lemma GainsTwo(disk: seq<Block>, ino: Inode, d1: seq<Block>, ino1: Inode, disk': seq<Block>, ino': Inode, bn: int)
    requires |ino.addrs| == |ino1.addrs| == |ino'.addrs| == NDIRECT + 1 && NDIRECT <= bn
    requires OneSlot(disk, ino, d1, ino1, NDIRECT) && OneSlot(d1, ino1, disk', ino', DataSlot(bn))
    requires ino1.addrs[NDIRECT] != 0
    ensures GainsOnly(disk, ino, disk', ino', bn)
  {
    assert SameSlot(d1, ino1, disk', ino', NDIRECT);
    forall b | b != bn
      ensures SameAddr(disk, ino, disk', ino', b)
    {
      assert SameSlot(disk, ino, d1, ino1, DataSlot(b));
      assert SameSlot(d1, ino1, disk', ino', DataSlot(b));
    }
  }

  /** How many of the blocks lo..hi of a file have no address. */
  function Missing(disk: seq<Block>, ino: Inode, lo: int, hi: int): (n: int)
    ensures n >= 0
    decreases hi - lo
  {
    if hi <= lo then 0 else Missing(disk, ino, lo, hi - 1) + if DataAddr(disk, ino, hi - 1) == 0 then 1 else 0
  }

  /** How many blocks it takes to give them all addresses, the indirect block counted once. */
  function Lacking(disk: seq<Block>, ino: Inode, lo: int, hi: int): (n: int)
    requires |ino.addrs| == NDIRECT + 1
  {
    Missing(disk, ino, lo, hi) + if lo < hi && NDIRECT < hi && ino.addrs[NDIRECT] == 0 then 1 else 0
  }

  lemma {:induction false} LackingMore(disk: seq<Block>, ino: Inode, lo: int, mid: int, hi: int)
    requires |ino.addrs| == NDIRECT + 1 && mid <= hi
    ensures Lacking(disk, ino, lo, mid) <= Lacking(disk, ino, lo, hi)
    decreases hi - mid
  {
    if mid < hi {
      LackingMore(disk, ino, lo, mid, hi - 1);
    }
  }

  /** Blocks lo..hi of a file have got their addresses since d0, out of the free blocks, and
      the blocks after them are as they were. */
  ghost predicate Spent(sb: Super, d0: seq<Block>, ino0: Inode, disk: seq<Block>, ino: Inode, lo: int, hi: int) {
    && |ino0.addrs| == |ino.addrs| == NDIRECT + 1 && 0 <= lo <= hi
    && Free(sb, d0) == Free(sb, disk) + Lacking(d0, ino0, lo, hi)
    && (forall b :: b >= hi ==> SameAddr(d0, ino0, disk, ino, b))
    && (ino.addrs[NDIRECT] == 0 <==> ino0.addrs[NDIRECT] == 0 && !(lo < hi && NDIRECT < hi))
  }

  /** What the next block takes is what the whole range takes more by it. */
  lemma SpentNext(sb: Super, d0: seq<Block>, ino0: Inode, disk: seq<Block>, ino: Inode, lo: int, hi: int)
    requires Spent(sb, d0, ino0, disk, ino, lo, hi)
    ensures Lacking(d0, ino0, lo, hi + 1) == Lacking(d0, ino0, lo, hi) + Needed(disk, ino, hi)
  {
    assert SameAddr(d0, ino0, disk, ino, hi);
  }

  lemma SpentStep(sb: Super, d0: seq<Block>, ino0: Inode, d1: seq<Block>, ino1: Inode, d2: seq<Block>, ino2: Inode,
      lo: int, hi: int)
    requires Spent(sb, d0, ino0, d1, ino1, lo, hi) && GainsOnly(d1, ino1, d2, ino2, hi)
    requires Free(sb, d1) == Free(sb, d2) + Needed(d1, ino1, hi)
    ensures Spent(sb, d0, ino0, d2, ino2, lo, hi + 1)
  {
    SpentNext(sb, d0, ino0, d1, ino1, lo, hi);
    forall b | b >= hi + 1
      ensures SameAddr(d0, ino0, d2, ino2, b)
    {
      assert SameAddr(d0, ino0, d1, ino1, b) && SameAddr(d1, ino1, d2, ino2, b);
    }
  }

  lemma {:induction false} FullIsNoneFree(sb: Super, disk: seq<Block>, n: int)
    requires forall a :: 0 <= a < n ==> Used(sb, disk, a)
    ensures FreeBelow(sb, disk, n) == 0
    decreases n
  {
    if n > 0 {
      FullIsNoneFree(sb, disk, n - 1);
    }
  }

  /** Counts over bitmaps that agree except at b. */
  lemma {:induction false} FreeChange(sb: Super, disk: seq<Block>, disk': seq<Block>, b: int, n: int)
    requires forall a :: 0 <= a < n && a != b ==> Used(sb, disk', a) == Used(sb, disk, a)
    requires 0 <= b < n ==> !Used(sb, disk, b) && Used(sb, disk', b)
    ensures FreeBelow(sb, disk, n) == FreeBelow(sb, disk', n) + if 0 <= b < n then 1 else 0
    decreases n
  {
    if n > 0 {
      FreeChange(sb, disk, disk', b, n - 1);
      assert n - 1 != b ==> Used(sb, disk', n - 1) == Used(sb, disk, n - 1);
    }
  }

  lemma OneFewerFree(sb: Super, disk: seq<Block>, disk': seq<Block>, b: int)
    requires Geometry(sb) && MetaUsed(sb, disk) && Allocates(sb, disk, disk', b)
    ensures Free(sb, disk) == Free(sb, disk') + 1
  {
    assert sb.data <= b;
    forall a | 0 <= a < sb.size
      ensures Used(sb, disk', a) == (a == b || Used(sb, disk, a))
    {
      UsedMarks(sb, disk, disk', b, true, a);
    }
    FreeChange(sb, disk, disk', b, sb.size);
  }

  /** Replacing the bytes of a file from off on, growing it if need be. */
  function Splice(c: seq<int>, off: int, src: seq<int>): (c': seq<int>)
    requires 0 <= off <= |c|
  {
    c[..off] + src + (if off + |src| < |c| then c[off + |src|..] else [])
  }

  /** The most blocks that giving block bn of a file an address can add to the transaction,
      apart from the data block itself. */
  function BmapCost(disk: seq<Block>, ino: Inode, bn: int, logged: set<int>): (c: int)
    requires |ino.addrs| == NDIRECT + 1
  {
    if DataAddr(disk, ino, bn) != 0 then 0 else 1 + IndexCost(ino, bn, logged)
  }

  function IndexCost(ino: Inode, bn: int, logged: set<int>): (c: int)
    requires |ino.addrs| == NDIRECT + 1
    ensures 0 <= c <= 2
  {
    var x := ino.addrs[NDIRECT];
    if bn < NDIRECT then 0 else if x == 0 then 2 else if x in logged then 0 else 1
  }

  /** src is in the file at off, and the rest of what had an address is unchanged. */
  ghost predicate Patched(disk: seq<Block>, ino: Inode, disk': seq<Block>, ino': Inode, off: int, src: seq<int>) {
    && ino'.size == ino.size && ino'.device == ino.device && KeepsIndex(ino, ino')
    && (forall bn {:trigger DataAddr(disk', ino', bn)} :: DataAddr(disk, ino, bn) != 0 ==>
        DataAddr(disk', ino', bn) != 0)
    && forall p {:trigger DataByte(disk', ino', p)} :: 0 <= p < MAXFILE * BSIZE ==>
         && (off <= p < off + |src| ==> DataByte(disk', ino', p) == src[p - off])
         && (!(off <= p < off + |src|) && DataAddr(disk, ino, p / BSIZE) != 0 ==>
               DataByte(disk', ino', p) == DataByte(disk, ino, p))
  }

  lemma KeepsMapped(disk: seq<Block>, inodes: map<int, Inode>, owner: map<int, Slot>, disk': seq<Block>,
      inodes': map<int, Inode>, owner': map<int, Slot>, i: int)
    requires AllMapped(disk, inodes) && Named(disk, inodes, owner) && i in inodes
    requires KeepsOthers(disk, inodes, owner, disk', inodes', owner', i)
    requires inodes'[i].size == inodes[i].size
    requires forall bn :: DataAddr(disk, inodes[i], bn) != 0 ==> DataAddr(disk', inodes'[i], bn) != 0
    ensures AllMapped(disk', inodes')
  {
    forall j | j in inodes'
      ensures 0 <= inodes'[j].size <= MAXFILE * BSIZE && Mapped(disk', inodes'[j])
    {
      if j == i {
        assert Mapped(disk, inodes[i]);
        assert forall bn :: 0 <= bn && bn * BSIZE < inodes[i].size ==> DataAddr(disk, inodes[i], bn) != 0;
      } else {
        OthersContents(disk, inodes, owner, disk', inodes', owner', i, j);
      }
    }
  }

  function Max(a: int, b: int): (m: int) {
    if a >= b then a else b
  }

  function Min(a: int, b: int): (m: int) {
    if a <= b then a else b
  }

  /** How many of the bytes left lie in the block of offset o. */
  function StepSize(o: int, left: int): (m: int)
    requires 0 < left
    ensures 0 < m <= left && o % BSIZE + m <= BSIZE && (m == left || (o + m) % BSIZE == 0)
  {
    Min(left, BSIZE - o % BSIZE)
  }

  /** A write of src at off0 that has come as far as off o. */
  ghost predicate Progress(d0: seq<Block>, ino0: Inode, disk: seq<Block>, ino: Inode, off0: int, o: int, src: seq<int>)
    requires off0 <= o <= off0 + |src|
  {
    && ino.size == ino0.size && ino.device == ino0.device
    && (forall bn {:trigger DataAddr(disk, ino, bn)} ::
          0 <= bn && bn * BSIZE < Max(ino0.size, o) ==> DataAddr(disk, ino, bn) != 0)
    && forall p {:trigger DataByte(disk, ino, p)} :: 0 <= p < Max(ino0.size, o) ==>
         DataByte(disk, ino, p) == if off0 <= p < o then src[p - off0] else DataByte(d0, ino0, p)
  }

  lemma ProgressStep(d0: seq<Block>, ino0: Inode, d1: seq<Block>, ino1: Inode, d2: seq<Block>, ino2: Inode,
      off0: int, o: int, m: int, src: seq<int>)
    requires 0 <= off0 <= o < o + m <= off0 + |src| <= MAXFILE * BSIZE && off0 <= ino0.size <= MAXFILE * BSIZE
    requires o % BSIZE + m <= BSIZE
    requires Progress(d0, ino0, d1, ino1, off0, o, src)
    requires Patched(d1, ino1, d2, ino2, o, src[o - off0..o - off0 + m]) && DataAddr(d2, ino2, o / BSIZE) != 0
    ensures Progress(d0, ino0, d2, ino2, off0, o + m, src)
  {
    forall bn | 0 <= bn && bn * BSIZE < Max(ino0.size, o + m)
      ensures DataAddr(d2, ino2, bn) != 0
    {
      if bn != o / BSIZE {
        assert bn * BSIZE < Max(ino0.size, o);
        assert DataAddr(d1, ino1, bn) != 0;
      }
    }
    forall p | 0 <= p < Max(ino0.size, o + m)
      ensures DataByte(d2, ino2, p) == if off0 <= p < o + m then src[p - off0] else DataByte(d0, ino0, p)
    {
      if !(o <= p < o + m) {
        assert p / BSIZE * BSIZE <= p;
        assert DataAddr(d1, ino1, p / BSIZE) != 0;
        assert DataByte(d1, ino1, p) == if off0 <= p < o then src[p - off0] else DataByte(d0, ino0, p);
      }
    }
  }

  lemma ProgressDone(d0: seq<Block>, ino0: Inode, disk: seq<Block>, ino: Inode, ino': Inode, off0: int, src: seq<int>)
    requires 0 <= off0 <= ino0.size
    requires Progress(d0, ino0, disk, ino, off0, off0 + |src|, src)
    requires ino' == ino.(size := Max(ino0.size, off0 + |src|))
    ensures Contents(disk, ino') == Splice(Contents(d0, ino0), off0, src) && Mapped(disk, ino')
  {
    var c, c' := Contents(disk, ino'), Splice(Contents(d0, ino0), off0, src);
    assert |c| == |c'|;
    forall p | 0 <= p < |c|
      ensures c[p] == c'[p]
    {
      assert DataByte(disk, ino', p) == DataByte(disk, ino, p);
    }
    forall bn | 0 <= bn && bn * BSIZE < ino'.size
      ensures DataAddr(disk, ino', bn) != 0
    {
      assert DataAddr(disk, ino, bn) != 0;
    }
  }

  lemma SpliceTwice(c: seq<int>, off: int, a: seq<int>, b: seq<int>)
    requires 0 <= off <= |c|
    ensures off + |a| <= |Splice(c, off, a)|
    ensures Splice(Splice(c, off, a), off + |a|, b) == Splice(c, off, a + b)
  {
  }

  /** What was written is what is read, and nothing else has changed. */
  lemma SpliceReads(c: seq<int>, off: int, src: seq<int>)
    requires 0 <= off <= |c|
    ensures var d := Splice(c, off, src);
      && |d| == Max(|c|, off + |src|) && d[off..off + |src|] == src && d[..off] == c[..off]
      && (off + |src| < |c| ==> d[off + |src|..] == c[off + |src|..])
  {
  }

  /** Two writes, one after the other, are one write. */
  lemma SpliceOn(file: seq<int>, off: int, addr: seq<int>, n: int, n': int, c1: seq<int>, c2: seq<int>)
    requires 0 <= off <= |file| && 0 <= n <= n' <= |addr|
    requires c1 == Splice(file, off, addr[..n]) && off + n <= |c1| && c2 == Splice(c1, off + n, addr[n..n'])
    ensures c2 == Splice(file, off, addr[..n'])
  {
    SpliceTwice(file, off, addr[..n], addr[n..n']);
    assert addr[..n] + addr[n..n'] == addr[..n'];
  }

  /** Every inode but i, and the contents of its file, are as they were. */
  ghost predicate OthersSame(disk: seq<Block>, inodes: map<int, Inode>, disk': seq<Block>, inodes': map<int, Inode>,
      i: int) {
    inodes'.Keys == inodes.Keys && forall j :: j in inodes && j != i ==> SameFile(disk, inodes, disk', inodes', j)
  }

  ghost predicate SameFile(disk: seq<Block>, inodes: map<int, Inode>, disk': seq<Block>, inodes': map<int, Inode>,
      j: int) {
    && j in inodes && j in inodes'
    && (0 <= inodes[j].size ==> inodes'[j] == inodes[j] && Contents(disk', inodes[j]) == Contents(disk, inodes[j]))
  }

  lemma OthersSameTwice(d0: seq<Block>, n0: map<int, Inode>, d1: seq<Block>, n1: map<int, Inode>, d2: seq<Block>,
      n2: map<int, Inode>, i: int)
    requires OthersSame(d0, n0, d1, n1, i) && OthersSame(d1, n1, d2, n2, i)
    ensures OthersSame(d0, n0, d2, n2, i)
  {
    forall j | j in n0 && j != i
      ensures SameFile(d0, n0, d2, n2, j)
    {
      assert SameFile(d0, n0, d1, n1, j) && SameFile(d1, n1, d2, n2, j);
    }
  }

  lemma OthersSameSelf(disk: seq<Block>, inodes: map<int, Inode>, i: int)
    ensures OthersSame(disk, inodes, disk, inodes, i)
  {
  }

  lemma KeepsOthersSame(disk: seq<Block>, inodes: map<int, Inode>, owner: map<int, Slot>, disk': seq<Block>,
      inodes': map<int, Inode>, owner': map<int, Slot>, i: int)
    requires Named(disk, inodes, owner) && KeepsOthers(disk, inodes, owner, disk', inodes', owner', i)
    ensures OthersSame(disk, inodes, disk', inodes', i)
  {
    forall j | j in inodes && j != i
      ensures SameFile(disk, inodes, disk', inodes', j)
    {
      if 0 <= inodes[j].size {
        OthersContents(disk, inodes, owner, disk', inodes', owner', i, j);
      }
    }
  }

  /** The error returns of a write: a hole before it, a wrapped sum, or too large a file. */
  predicate WriteRefused(size: int, off: int, n: int) {
    off > size || off + n >= U32 || off + n > MAXFILE * BSIZE
  }

  /** A change of size moves no block. */
  lemma ResizeOwned(sb: Super, disk: seq<Block>, inodes: map<int, Inode>, inodes': map<int, Inode>,
      owner: map<int, Slot>, i: int, n: int)
    requires Owned(sb, disk, inodes, owner, {}) && i in inodes && inodes' == inodes[i := inodes[i].(size := n)]
    ensures Owned(sb, disk, inodes', owner, {})
  {
    forall j, k | j in inodes' && IsSlot(k)
      ensures Recorded(owner, Addr(disk, inodes'[j], k), Slot(j, k))
    {
      assert Addr(disk, inodes'[j], k) == Addr(disk, inodes[j], k);
    }
    forall a | a in owner
      ensures sb.data <= a < sb.size && Names(disk, inodes', owner[a], a)
    {
      assert Names(disk, inodes, owner[a], a);
    }
  }

  /** The number of blocks that bytes off0..o of a file touch. */
  function Touched(off0: int, o: int): (t: int) {
    if o <= off0 then 0 else (o - 1) / BSIZE - off0 / BSIZE + 1
  }

  /** Of those, the number that can need allocating when everything below off0 is mapped. */
  function Allocated(off0: int, o: int): (t: int) {
    if o > off0 && off0 % BSIZE != 0 then Touched(off0, o) - 1 else Touched(off0, o)
  }

  /** The blocks that a write of n bytes at off takes from the free ones. */
  function WriteNeeds(disk: seq<Block>, ino: Inode, off: int, n: int): (k: int)
    requires |ino.addrs| == NDIRECT + 1
  {
    Lacking(disk, ino, off / BSIZE, off / BSIZE + Touched(off, off + n))
  }

  lemma NextBlock(off0: int, o: int)
    requires 0 <= off0 <= o && (o == off0 || o % BSIZE == 0)
    ensures off0 / BSIZE + Touched(off0, o) == o / BSIZE
  {
  }

  lemma TouchMore(off0: int, o: int, end: int)
    requires 0 <= off0 <= o <= end
    ensures Touched(off0, o) <= Touched(off0, end)
  {
  }

  lemma TouchStep(off0: int, o: int, m: int)
    requires 0 <= off0 <= o && 0 < m && o % BSIZE + m <= BSIZE && (o == off0 || o % BSIZE == 0)
    ensures Touched(off0, o + m) == Touched(off0, o) + 1
    ensures o == off0 && off0 % BSIZE != 0 ==> Allocated(off0, o + m) == Allocated(off0, o)
    ensures o != off0 || off0 % BSIZE == 0 ==> Allocated(off0, o + m) == Allocated(off0, o) + 1
  {
    assert (o + m - 1) / BSIZE == o / BSIZE;
    assert o != off0 ==> (o - 1) / BSIZE == o / BSIZE - 1;
  }

  /** What a write from off0 to o has put in the transaction. */
  ghost predicate Charged(l0: set<int>, logged: set<int>, ino: Inode, off0: int, o: int, x: int) {
    && |ino.addrs| == NDIRECT + 1
    && |logged| <= |l0| + Touched(off0, o) + Allocated(off0, o) + x
    && 0 <= x <= 2 && (x > 0 ==> ino.addrs[NDIRECT] != 0 && ino.addrs[NDIRECT] in logged)
  }

  lemma ChargeStep(l0: set<int>, l1: set<int>, l2: set<int>, ino1: Inode, ino2: Inode, off0: int, o: int, m: int,
      isNew: bool, x: int)
    requires 0 <= off0 <= o && 0 < m && o % BSIZE + m <= BSIZE && (o == off0 || o % BSIZE == 0)
    requires Charged(l0, l1, ino1, off0, o, x) && KeepsIndex(ino1, ino2)
    requires ino1.addrs[NDIRECT] in l1 ==> ino1.addrs[NDIRECT] in l2
    requires isNew ==> !(o == off0 && off0 % BSIZE != 0)
    requires isNew && o / BSIZE >= NDIRECT ==> ino2.addrs[NDIRECT] != 0 && ino2.addrs[NDIRECT] in l2
    requires |l2| <= |l1| + 1 + (if isNew then 1 + IndexCost(ino1, o / BSIZE, l1) else 0)
    ensures Charged(l0, l2, ino2, off0, o + m, if isNew then x + IndexCost(ino1, o / BSIZE, l1) else x)
  {
    TouchStep(off0, o, m);
  }

  lemma ChargeTurn(l0: set<int>, l1: set<int>, l2: set<int>, d1: seq<Block>, ino1: Inode, ino2: Inode, off0: int,
      o: int, m: int, x: int)
    returns (x': int)
    requires 0 <= off0 <= o && 0 < m && o % BSIZE + m <= BSIZE && (o == off0 || o % BSIZE == 0)
    requires Charged(l0, l1, ino1, off0, o, x) && KeepsIndex(ino1, ino2) && l1 <= l2
    requires o == off0 && off0 % BSIZE != 0 ==> DataAddr(d1, ino1, o / BSIZE) != 0
    requires DataAddr(d1, ino1, o / BSIZE) == 0 && o / BSIZE >= NDIRECT ==>
      ino2.addrs[NDIRECT] != 0 && ino2.addrs[NDIRECT] in l2
    requires |l2| <= |l1| + 1 + BmapCost(d1, ino1, o / BSIZE, l1)
    ensures Charged(l0, l2, ino2, off0, o + m, x')
  {
    var isNew := DataAddr(d1, ino1, o / BSIZE) == 0;
    x' := if isNew then x + IndexCost(ino1, o / BSIZE, l1) else x;
    ChargeStep(l0, l1, l2, ino1, ino2, off0, o, m, isNew, x);
  }

  /** The most blocks that a write of n bytes at off puts in the transaction: those it touches, a
      bitmap block for each that it allocates, the indirect block and its bitmap block, and the
      block of the inode. */
  function LogCost(off: int, n: int): (c: int) {
    Touched(off, off + n) + Allocated(off, off + n) + 2 + 1
  }

  /** The bitmap blocks of the blocks in slots lo..hi of an inode. */
  ghost function Bitmaps(sb: Super, disk: seq<Block>, ino: Inode, lo: int, hi: int): (ns: set<int>) {
    set k | lo <= k < hi && Addr(disk, ino, k) != 0 :: BBlock(sb, Addr(disk, ino, k))
  }

  /** The bitmap blocks of the blocks that the first j words of an indirect block name. */
  ghost function WordBitmaps(sb: Super, bp: Block, j: int): (ns: set<int>)
    requires IsBlock(bp) && j <= NINDIRECT
  {
    set w | 0 <= w < j && Word(bp, w) != 0 :: BBlock(sb, Word(bp, w))
  }

  lemma BitmapsStep(sb: Super, disk: seq<Block>, ino: Inode, lo: int, k: int)
    requires lo <= k
    ensures Bitmaps(sb, disk, ino, lo, k + 1) ==
      Bitmaps(sb, disk, ino, lo, k) + if Addr(disk, ino, k) != 0 then {BBlock(sb, Addr(disk, ino, k))} else {}
  {
  }

  lemma WordBitmapsStep(sb: Super, bp: Block, j: int)
    requires IsBlock(bp) && 0 <= j < NINDIRECT
    ensures WordBitmaps(sb, bp, j + 1) ==
      WordBitmaps(sb, bp, j) + if Word(bp, j) != 0 then {BBlock(sb, Word(bp, j))} else {}
  {
  }

  /** The slots after the addresses are the words of the indirect block. */
  lemma BitmapsOfWords(sb: Super, disk: seq<Block>, ino: Inode, x: int)
    requires |ino.addrs| == NDIRECT + 1 && ino.addrs[NDIRECT] == x
    requires 0 < x < |disk| && IsBlock(disk[x])
    ensures Bitmaps(sb, disk, ino, NDIRECT + 1, NSLOT) == WordBitmaps(sb, disk[x], NINDIRECT)
  {
    var a, b := Bitmaps(sb, disk, ino, NDIRECT + 1, NSLOT), WordBitmaps(sb, disk[x], NINDIRECT);
    forall n | n in b
      ensures n in a
    {
      var w :| 0 <= w < NINDIRECT && Word(disk[x], w) != 0 && n == BBlock(sb, Word(disk[x], w));
      assert Addr(disk, ino, NDIRECT + 1 + w) == Word(disk[x], w);
    }
    forall n | n in a
      ensures n in b
    {
      var k :| NDIRECT + 1 <= k < NSLOT && Addr(disk, ino, k) != 0 && n == BBlock(sb, Addr(disk, ino, k));
      assert Addr(disk, ino, k) == Word(disk[x], k - NDIRECT - 1);
    }
  }

  lemma BitmapsSplit(sb: Super, disk: seq<Block>, ino: Inode, lo: int, mid: int, hi: int)
    requires lo <= mid <= hi
    ensures Bitmaps(sb, disk, ino, lo, hi) == Bitmaps(sb, disk, ino, lo, mid) + Bitmaps(sb, disk, ino, mid, hi)
  {
  }

  /** The members of ns among the c numbers from lo on. */
  ghost function Clip(ns: set<int>, lo: int, c: nat): (r: set<int>) {
    if c == 0 then {} else Clip(ns, lo, c - 1) + if lo + c - 1 in ns then {lo + c - 1} else {}
  }

  lemma {:induction false} ClipSize(ns: set<int>, lo: int, c: nat)
    ensures Clip(ns, lo, c) <= ns && |Clip(ns, lo, c)| <= c
    decreases c
  {
    if c > 0 {
      ClipSize(ns, lo, c - 1);
      AddOne(Clip(ns, lo, c - 1), lo + c - 1);
    }
  }

  lemma {:induction false} ClipHas(ns: set<int>, lo: int, c: nat, n: int)
    requires n in ns && lo <= n < lo + c
    ensures n in Clip(ns, lo, c)
    decreases c
  {
    if n < lo + c - 1 {
      ClipHas(ns, lo, c - 1, n);
    }
  }

  /** On a disk of at most nine bitmap blocks, freeing a file's blocks fits a reservation. */
  lemma TruncFits(sb: Super, disk: seq<Block>, ino: Inode, ib: int)
    requires Geometry(sb) && sb.size <= (MAXOPBLOCKS - 1) * BPB
    requires forall k :: IsSlot(k) ==> 0 <= Addr(disk, ino, k) < sb.size
    ensures |Bitmaps(sb, disk, ino, 0, NSLOT) + {ib}| <= MAXOPBLOCKS
  {
    var ns := Bitmaps(sb, disk, ino, 0, NSLOT);
    var r := Clip(ns, sb.bmapstart, MAXOPBLOCKS - 1);
    ClipSize(ns, sb.bmapstart, MAXOPBLOCKS - 1);
    forall k | 0 <= k < NSLOT && Addr(disk, ino, k) != 0
      ensures BBlock(sb, Addr(disk, ino, k)) in r
    {
      assert IsSlot(k);
      ClipHas(ns, sb.bmapstart, MAXOPBLOCKS - 1, BBlock(sb, Addr(disk, ino, k)));
    }
    assert ns == r;
    AddOne(ns, ib);
  }

  lemma TruncLogs(sb: Super, disk: seq<Block>, ino: Inode, l0: set<int>, l1: set<int>, l2: set<int>, l3: set<int>,
      ib: int)
    requires Geometry(sb) && forall k :: IsSlot(k) ==> 0 <= Addr(disk, ino, k) < sb.size
    requires l1 == l0 + Bitmaps(sb, disk, ino, 0, NDIRECT) && l2 == l1 + Bitmaps(sb, disk, ino, NDIRECT, NSLOT)
    requires l3 == l2 + {ib}
    ensures l3 == l0 + Bitmaps(sb, disk, ino, 0, NSLOT) + {ib}
    ensures l0 == {} && sb.size <= (MAXOPBLOCKS - 1) * BPB ==> |l3| <= MAXOPBLOCKS
  {
    BitmapsSplit(sb, disk, ino, 0, NDIRECT, NSLOT);
    if l0 == {} && sb.size <= (MAXOPBLOCKS - 1) * BPB {
      assert l3 == Bitmaps(sb, disk, ino, 0, NSLOT) + {ib};
      TruncFits(sb, disk, ino, ib);
    }
  }

  /** A write of at most three blocks' worth of bytes fits a reservation. */
  lemma ChunkFits(off0: int, n: int)
    requires 0 <= off0 && 0 <= n <= (MAXOPBLOCKS - 1 - 1 - 2) / 2 * BSIZE
    ensures LogCost(off0, n) <= MAXOPBLOCKS
  {
  }

  lemma AddOne(s: set<int>, a: int)
    ensures |s + {a}| <= |s| + 1
  {
    if a in s {
      assert s + {a} == s;
    }
  }

  /** The blocks that giving a data block b an address adds to the transaction. */
  lemma BmapGain(l0: set<int>, l1: set<int>, l2: set<int>, x: int, y: int, n: int, b: int, c: int)
    requires l1 == l0 || l1 == l0 + {y, x}
    requires l2 == l1 + {n, b} || l2 == l1 + {n, b} + {x}
    requires c >= 0 && (l1 == l0 && x !in l0 + {n, b} && x in l2 ==> c >= 1)
    requires l1 != l0 ==> c >= 2
    ensures |l2 + {b}| <= |l0| + 2 + c
  {
    AddOne(l1, n);
    AddOne(l1 + {n}, b);
    var l := l1 + {n} + {b};
    if l1 == l0 {
      if x in l {
        assert l2 + {b} == l;
      } else {
        AddOne(l, x);
        assert l2 + {b} == l || l2 + {b} == l + {x};
      }
    } else {
      assert l1 == l0 + {y} + {x};
      AddOne(l0, y);
      AddOne(l0 + {y}, x);
      assert l2 + {b} == l;
    }
  }

  lemma SliceOn(file: seq<int>, off: int, o: int, end: int)
    requires 0 <= off <= o <= end <= |file|
    ensures file[off..end] == file[off..o] + file[o..end]
  {
  }

  /** Bytes of a file that lie in one block are bytes of that block. */
  lemma BytesOfBlock(disk: seq<Block>, ino: Inode, o: int, m: int, a: int)
    requires 0 <= o < o + m <= ino.size && o % BSIZE + m <= BSIZE && a == DataAddr(disk, ino, o / BSIZE)
    requires 0 < a < |disk| && |disk[a].bytes| == BSIZE
    ensures Contents(disk, ino)[o..o + m] == disk[a].bytes[o % BSIZE..o % BSIZE + m]
  {
    var have, want := Contents(disk, ino)[o..o + m], disk[a].bytes[o % BSIZE..o % BSIZE + m];
    forall p | 0 <= p < m
      ensures have[p] == want[p]
    {
      ByteOfBlock(disk, ino, o, o + p, o % BSIZE + p, a);
    }
    assert have == want;
  }

  lemma ByteOfBlock(disk: seq<Block>, ino: Inode, o: int, p: int, q: int, a: int)
    requires 0 <= o <= p && q == o % BSIZE + (p - o) < BSIZE && a == DataAddr(disk, ino, o / BSIZE)
    requires 0 < a < |disk| && |disk[a].bytes| == BSIZE
    ensures DataByte(disk, ino, p) == disk[a].bytes[q]
  {
    assert p / BSIZE == o / BSIZE && p % BSIZE == q;
  }

  /** From d0 to d1 only blocks of the transaction changed, which may have grown from l0 to l1. */
  ghost predicate Logs(d0: seq<Block>, l0: set<int>, d1: seq<Block>, l1: set<int>) {
    l0 <= l1 && |d0| == |d1| && forall a :: 0 <= a < |d0| && a !in l1 ==> d1[a] == d0[a]
  }

  lemma LogsTwice(d0: seq<Block>, l0: set<int>, d1: seq<Block>, l1: set<int>, d2: seq<Block>, l2: set<int>)
    requires Logs(d0, l0, d1, l1) && Logs(d1, l1, d2, l2)
    ensures Logs(d0, l0, d2, l2)
  {
    assert forall a :: 0 <= a < |d0| && a !in l2 ==> a !in l1;
  }

  /** The bytes that one transaction of a write through a file descriptor takes at most. */
  const CHUNK: int := (MAXOPBLOCKS - 1 - 1 - 2) / 2 * 512

  /** When the piece of a write after its first n bytes is refused. */
  lemma ChunkRefused(before: int, size: int, off: int, total: int, n: int, n': int)
    requires 0 <= n < n' <= total < U32 / 2 && 0 <= off < U32
    requires n == 0 ==> size == before
    requires n > 0 ==> off <= before && off + n <= MAXFILE * BSIZE && size == Max(before, off + n)
    ensures 0 <= off + n < U32
    ensures WriteRefused(size, off + n, n' - n) <==> off > before || off + n' > MAXFILE * BSIZE
    ensures !WriteRefused(size, off + n, n' - n) ==> off + n <= size
  {
  }

  /** c is a file that held `file` before the first n bytes of addr were written to it at off. */
  ghost predicate Written(c: seq<int>, file: seq<int>, off: int, addr: seq<int>, n: int) {
    && 0 <= n <= |addr| && 0 <= off
    && (n == 0 ==> c == file)
    && (n > 0 ==> off <= |file| && off + n <= MAXFILE * BSIZE && c == Splice(file, off, addr[..n]))
  }

  /** The bytes written so far and the next ones make one longer write. */
  lemma WrittenMore(c1: seq<int>, file: seq<int>, off: int, addr: seq<int>, n: int, n': int, c2: seq<int>)
    requires Written(c1, file, off, addr, n) && n < n' <= |addr| && off + n' <= MAXFILE * BSIZE
    requires off <= |file| && off + n <= |c1| && c2 == Splice(c1, off + n, addr[n..n'])
    ensures Written(c2, file, off, addr, n')
  {
    if n == 0 {
      assert addr[..0] == [] && c1 == Splice(file, off, addr[..0]);
    }
    SpliceOn(file, off, addr, n, n', c1, c2);
  }

  lemma WrittenSize(c: seq<int>, file: seq<int>, off: int, addr: seq<int>, n: int)
    requires Written(c, file, off, addr, n)
    ensures n == 0 ==> |c| == |file|
    ensures n > 0 ==> off <= |file| && off + n <= MAXFILE * BSIZE && |c| == Max(|file|, off + n)
  {
  }

  /** c pieces, all but the last full, make n bytes of the total. */
  predicate Pieces(c: int, n: int, total: int) {
    n == Min(c * CHUNK, total) && c * CHUNK < total + CHUNK
  }

  lemma PiecesStep(c: int, n: int, total: int, n': int)
    requires 0 <= c && Pieces(c, n, total) && n < total && n' == Min(total, n + CHUNK)
    ensures Pieces(c + 1, n', total) && c * CHUNK == n && n < n' <= n + CHUNK
  {
    assert CHUNK == 1536;
  }

  lemma PiecesDone(c: int, total: int)
    requires 0 <= c && 0 <= total && Pieces(c, total, total)
    ensures c == (total + CHUNK - 1) / CHUNK
  {
    assert CHUNK == 1536;
  }

  /** Block a is in a transaction from the k-th on. */
  ghost predicate InSome(ts: seq<set<int>>, k: int, a: int) {
    exists t :: 0 <= k <= t < |ts| && a in ts[t]
  }

  /** From d0 to d1 only blocks of the transactions from the k-th on changed. */
  ghost predicate Covers(ts: seq<set<int>>, k: int, d0: seq<Block>, d1: seq<Block>) {
    |d0| == |d1| && forall a :: 0 <= a < |d0| && d1[a] != d0[a] ==> InSome(ts, k, a)
  }

  lemma CoversMore(ts: seq<set<int>>, k: int, d0: seq<Block>, d1: seq<Block>, l: set<int>, d2: seq<Block>)
    requires 0 <= k <= |ts| && Covers(ts, k, d0, d1) && Logs(d1, {}, d2, l)
    ensures Covers(ts + [l], k, d0, d2)
  {
    var us := ts + [l];
    forall a | 0 <= a < |d0| && d2[a] != d0[a]
      ensures InSome(us, k, a)
    {
      if a in l {
        assert a in us[|ts|];
      } else {
        assert InSome(ts, k, a);
        var t :| k <= t < |ts| && a in ts[t];
        assert a in us[t];
      }
    }
  }

  class FileSystem {
    const sb: Super
    var disk: seq<Block>
    var inodes: map<int, Inode>
    var dinodes: map<int, Inode>
    ghost var owner: map<int, Slot>
    /** The blocks of the running transaction, and of each that has ended. */
    ghost var logged: set<int>
    ghost var transactions: seq<set<int>>

    /** Holds between the steps of an operation. */
    ghost predicate Good()
      reads this
    {
      && Geometry(sb) && DiskOk(sb, disk) && InodesOk(inodes)
      && Owned(sb, disk, inodes, owner, {})
      && AllMapped(disk, inodes)
    }

    /** Holds between operations: besides, every inode is on the disk as it is in memory. */
    ghost predicate Valid()
      reads this
    {
      Good() && dinodes == inodes
    }

    /** Takes the lowest numbered free block and zeroes it. */
    method Balloc() returns (r: Address)
      requires Geometry(sb) && DiskOk(sb, disk) && MetaUsed(sb, disk)
      modifies `disk, `logged
      ensures !r.At? ==> r.OutOfBlocks? && DiskFull(sb, disk) && disk == old(disk) && logged == old(logged)
      ensures r.At? ==> Allocates(sb, old(disk), disk, r.block) && DiskOk(sb, disk)
      ensures r.At? ==> forall a :: 0 <= a < r.block ==> Used(sb, old(disk), a)
      ensures !r.At? ==> Free(sb, disk) == 0
      ensures r.At? ==> Free(sb, disk) == Free(sb, old(disk)) - 1
      ensures r.At? ==> logged == old(logged) + {BBlock(sb, r.block), r.block}
      ensures r.At? ==> Logs(old(disk), old(logged), disk, logged)
    {
      var b := 0;
      while b < sb.size
        invariant 0 <= b && b % BPB == 0 && disk == old(disk) && logged == old(logged)
        invariant forall a :: 0 <= a < b && a < sb.size ==> Used(sb, disk, a)
      {
        BBlockIsMeta(sb, b);
        var bp := disk[BBlock(sb, b)];
        var bi := 0;
        while bi < BPB && b + bi < sb.size
          invariant 0 <= bi <= BPB && disk == old(disk) && logged == old(logged)
          invariant forall a :: 0 <= a < b + bi && a < sb.size ==> Used(sb, disk, a)
        {
          assert (b + bi) / BPB == b / BPB && (b + bi) % BPB == bi;
          if !InUse(bp, bi) {
            Take(b + bi);
            return At(b + bi);
          }
          assert Used(sb, disk, b + bi);
          bi := bi + 1;
        }
        b := b + BPB;
      }
      FullIsNoneFree(sb, disk, sb.size);
      return OutOfBlocks;
    }

    method Take(b: int)
      requires Geometry(sb) && DiskOk(sb, disk) && MetaUsed(sb, disk)
      requires 0 <= b < sb.size && !Used(sb, disk, b)
      modifies `disk, `logged
      ensures Allocates(sb, old(disk), disk, b) && DiskOk(sb, disk)
      ensures Free(sb, disk) == Free(sb, old(disk)) - 1
      ensures logged == old(logged) + {BBlock(sb, b), b}
      ensures Logs(old(disk), old(logged), disk, logged)
    {
      var n := BBlock(sb, b);
      BBlockIsMeta(sb, b);
      disk := disk[n := Mark(disk[n], b % BPB, true)];
      logged := logged + {n};
      disk := disk[b := ZeroBlock()];
      logged := logged + {b};
      OneFewerFree(sb, old(disk), disk, b);
    }

    /** Fills an empty address of inode i with a fresh block. */
    method FillAddr(i: int, k: int) returns (r: Address)
      requires Good() && i in inodes && 0 <= k <= NDIRECT && inodes[i].addrs[k] == 0
      modifies `disk, `inodes, `owner, `logged
      ensures !r.At? ==> r.OutOfBlocks? && DiskFull(sb, disk)
      ensures Free(sb, old(disk)) == if r.At? then Free(sb, disk) + 1 else 0
      ensures r.At? ==> Good() && inodes == old(inodes[i := WithAddr(inodes[i], k, r.block)])
      ensures r.At? ==> Grown(old(disk), old(inodes), old(owner), i) && 0 < r.block < sb.size
      ensures r.At? ==> k == NDIRECT ==> disk[r.block] == ZeroBlock()
      ensures r.At? ==> OneSlot(old(disk), old(inodes[i]), disk, inodes[i], k)
      ensures r.At? ==> Logs(old(disk), old(logged), disk, logged)
      ensures r.At? ==> logged == old(logged) + {BBlock(sb, r.block), r.block}
    {
      r := Balloc();
      if r.At? {
        inodes := inodes[i := WithAddr(inodes[i], k, r.block)];
        owner := owner[r.block := Slot(i, k)];
        PlaceAddr(sb, old(disk), old(inodes), old(owner), disk, inodes, i, k, r.block);
        KeepsMapped(old(disk), old(inodes), old(owner), disk, inodes, owner, i);
      }
    }

    /** Since then, inode i may have got new blocks; everything else is as it was. */
    ghost predicate Grown(disk0: seq<Block>, inodes0: map<int, Inode>, owner0: map<int, Slot>, i: int)
      reads this
    {
      && KeepsOthers(disk0, inodes0, owner0, disk, inodes, owner, i)
      && i in inodes0 && i in inodes
      && KeepsData(disk0, inodes0[i], disk, inodes[i])
    }

    /** Fills an empty word of inode i's indirect block with a fresh block. */
    method FillWord(i: int, w: int) returns (r: Address)
      requires Good() && i in inodes && 0 <= w < NINDIRECT && inodes[i].addrs[NDIRECT] != 0
      requires Addr(disk, inodes[i], NDIRECT + 1 + w) == 0
      modifies `disk, `owner, `logged
      ensures !r.At? ==> r.OutOfBlocks? && DiskFull(sb, disk)
      ensures Free(sb, old(disk)) == if r.At? then Free(sb, disk) + 1 else 0
      ensures r.At? ==> Good() && Addr(disk, inodes[i], NDIRECT + 1 + w) == r.block && 0 < r.block < sb.size
      ensures r.At? ==> Grown(old(disk), old(inodes), old(owner), i)
      ensures r.At? ==> OneSlot(old(disk), inodes[i], disk, inodes[i], NDIRECT + 1 + w)
      ensures r.At? ==> logged == old(logged) + {BBlock(sb, r.block), r.block} + {inodes[i].addrs[NDIRECT]}
      ensures r.At? ==> Logs(old(disk), old(logged), disk, logged)
    {
      var x := inodes[i].addrs[NDIRECT];
      IndexOwned(disk, inodes, owner, i);
      r := Balloc();
      if r.At? {
        ghost var d1 := disk;
        disk := disk[x := PutWord(disk[x], w, r.block)];
        logged := logged + {x};
        owner := owner[r.block := Slot(i, NDIRECT + 1 + w)];
        PlaceWord(sb, old(disk), inodes, old(owner), d1, disk, i, x, w, r.block);
        SameFree(d1, x);
        KeepsMapped(old(disk), inodes, old(owner), disk, inodes, owner, i);
        WordPut(d1[x], w, r.block, w);
      }
    }

    lemma SameFree(d1: seq<Block>, x: int)
      requires Geometry(sb) && sb.data <= x < sb.size && |disk| == |d1| == sb.size
      requires forall a :: 0 <= a < sb.size && a != x ==> disk[a] == d1[a]
      ensures Free(sb, disk) == Free(sb, d1)
    {
      forall a | 0 <= a < sb.size
        ensures Used(sb, disk, a) == Used(sb, d1, a)
      {
        BBlockIsMeta(sb, a);
      }
      FreeChange(sb, d1, disk, -1, sb.size);
    }

    /** The address of block bn of inode i, allocating the block, and before it the indirect
        block, where there is none. */
    method Bmap(i: int, bn: int) returns (r: Address)
      requires Good() && i in inodes && 0 <= bn
      modifies `disk, `inodes, `owner, `logged
      ensures r.OutOfRange? <==> bn >= MAXFILE
      ensures r.OutOfBlocks? <==>
                bn < MAXFILE && Free(sb, old(disk)) < Needed(old(disk), old(inodes[i]), bn)
      ensures r.OutOfBlocks? ==> DiskFull(sb, disk)
      ensures r.At? ==> Free(sb, old(disk)) == Free(sb, disk) + Needed(old(disk), old(inodes[i]), bn)
      ensures r.At? ==> Good() && Grown(old(disk), old(inodes), old(owner), i)
      ensures r.At? ==> 0 < r.block < sb.size && DataAddr(disk, inodes[i], bn) == r.block
      ensures r.At? ==> GainsOnly(old(disk), old(inodes[i]), disk, inodes[i], bn)
      ensures old(DataAddr(disk, inodes[i], bn)) != 0 ==>
                r.At? && disk == old(disk) && inodes == old(inodes) && owner == old(owner) && logged == old(logged)
      ensures r.At? ==> Logs(old(disk), old(logged), disk, logged)
      ensures r.At? ==> |logged + {r.block}| <= |old(logged)| + 1 + old(BmapCost(disk, inodes[i], bn, logged))
      ensures r.At? && bn >= NDIRECT && old(DataAddr(disk, inodes[i], bn)) == 0 ==> inodes[i].addrs[NDIRECT] in logged
    {
      if bn < NDIRECT {
        var addr := inodes[i].addrs[bn];
        if addr == 0 {
          r := FillAddr(i, bn);
          if r.At? {
            BmapGain(old(logged), old(logged), logged, r.block, r.block, BBlock(sb, r.block), r.block, 0);
            GainsOne(old(disk), old(inodes[i]), disk, inodes[i], bn);
          }
        } else {
          r := At(addr);
          OneMore(i, bn, addr);
          GainsNone(disk, inodes[i], bn);
        }
      } else if bn < MAXFILE {
        r := BmapIndirect(i, bn - NDIRECT);
      } else {
        r := OutOfRange;
      }
    }

    lemma OneMore(i: int, bn: int, addr: int)
      requires Good() && i in inodes && addr == DataAddr(disk, inodes[i], bn) != 0
      ensures |logged + {addr}| <= |logged| + 1 && 0 < addr < sb.size && Grown(disk, inodes, owner, i)
    {
      AddOne(logged, addr);
      assert Recorded(owner, Addr(disk, inodes[i], DataSlot(bn)), Slot(i, DataSlot(bn)));
    }

    method BmapIndirect(i: int, w: int) returns (r: Address)
      requires Good() && i in inodes && 0 <= w < NINDIRECT
      modifies `disk, `inodes, `owner, `logged
      ensures !r.At? ==> r.OutOfBlocks? && DiskFull(sb, disk)
      ensures r.At? <==> Free(sb, old(disk)) >= Needed(old(disk), old(inodes[i]), NDIRECT + w)
      ensures r.At? ==> Free(sb, old(disk)) == Free(sb, disk) + Needed(old(disk), old(inodes[i]), NDIRECT + w)
      ensures r.At? ==> Good() && Grown(old(disk), old(inodes), old(owner), i)
      ensures r.At? ==> 0 < r.block < sb.size && DataAddr(disk, inodes[i], NDIRECT + w) == r.block
      ensures r.At? ==> GainsOnly(old(disk), old(inodes[i]), disk, inodes[i], NDIRECT + w)
      ensures old(DataAddr(disk, inodes[i], NDIRECT + w)) != 0 ==>
                r.At? && disk == old(disk) && inodes == old(inodes) && owner == old(owner) && logged == old(logged)
      ensures r.At? ==> Logs(old(disk), old(logged), disk, logged)
      ensures r.At? ==> |logged + {r.block}| <= |old(logged)| + 1 + old(BmapCost(disk, inodes[i], NDIRECT + w, logged))
      ensures r.At? && old(DataAddr(disk, inodes[i], NDIRECT + w)) == 0 ==> inodes[i].addrs[NDIRECT] in logged
    {
      var x := inodes[i].addrs[NDIRECT];
      ghost var y := 0;
      if x == 0 {
        r := FillAddr(i, NDIRECT);
        if !r.At? {
          return;
        }
        x := r.block;
        y := BBlock(sb, x);
        WordZero(w);
      }
      IndexOwned(disk, inodes, owner, i);
      var addr := Word(disk[x], w);
      if addr == 0 {
        ghost var d1, n1, o1, l1 := disk, inodes, owner, logged;
        r := FillWord(i, w);
        if r.At? {
          GrownTwice(old(disk), old(inodes), old(owner), d1, n1, o1, i);
          LogsTwice(old(disk), old(logged), d1, l1, disk, logged);
          if old(inodes[i].addrs[NDIRECT]) == 0 {
            GainsTwo(old(disk), old(inodes[i]), d1, n1[i], disk, inodes[i], NDIRECT + w);
          } else {
            GainsOne(d1, n1[i], disk, inodes[i], NDIRECT + w);
          }
          BmapGain(old(logged), l1, logged, x, y, BBlock(sb, r.block), r.block,
                   IndexCost(old(inodes[i]), NDIRECT + w, old(logged)));
        }
      } else {
        r := At(addr);
        OneMore(i, NDIRECT + w, addr);
        GainsNone(disk, inodes[i], NDIRECT + w);
      }
    }

    lemma GrownTwice(d0: seq<Block>, n0: map<int, Inode>, o0: map<int, Slot>, d1: seq<Block>, n1: map<int, Inode>,
        o1: map<int, Slot>, i: int)
      requires KeepsOthers(d0, n0, o0, d1, n1, o1, i) && i in n0 && i in n1 && KeepsData(d0, n0[i], d1, n1[i])
      requires Grown(d1, n1, o1, i)
      ensures Grown(d0, n0, o0, i)
    {
    }

    /** Writes bytes that lie in one block of the file. */
    method WriteBlock(i: int, off: int, src: seq<int>) returns (ok: bool)
      requires Good() && i in inodes && 0 <= off < MAXFILE * BSIZE && off % BSIZE + |src| <= BSIZE
      modifies `disk, `inodes, `owner, `logged
      ensures !ok ==> DiskFull(sb, disk)
      ensures ok <==> Free(sb, old(disk)) >= Needed(old(disk), old(inodes[i]), off / BSIZE)
      ensures ok ==> Free(sb, old(disk)) == Free(sb, disk) + Needed(old(disk), old(inodes[i]), off / BSIZE)
      ensures ok ==> Good() && KeepsOthers(old(disk), old(inodes), old(owner), disk, inodes, owner, i)
      ensures ok ==> Patched(old(disk), old(inodes[i]), disk, inodes[i], off, src)
      ensures ok ==> GainsOnly(old(disk), old(inodes[i]), disk, inodes[i], off / BSIZE)
      ensures ok ==> DataAddr(disk, inodes[i], off / BSIZE) != 0
      ensures ok && old(DataAddr(disk, inodes[i], off / BSIZE)) != 0 ==> inodes == old(inodes)
      ensures ok ==> Logs(old(disk), old(logged), disk, logged)
      ensures ok ==> |logged| <= |old(logged)| + 1 + old(BmapCost(disk, inodes[i], off / BSIZE, logged))
      ensures ok && off / BSIZE >= NDIRECT && old(DataAddr(disk, inodes[i], off / BSIZE)) == 0 ==>
                inodes[i].addrs[NDIRECT] in logged
    {
      var r := Bmap(i, off / BSIZE);
      if !r.At? {
        return false;
      }
      ghost var d1, l1 := disk, logged;
      PutBytes(old(disk), old(inodes), old(owner), i, off / BSIZE, off % BSIZE, src, r.block);
      LogsTwice(old(disk), old(logged), d1, l1, disk, logged);
      return true;
    }

    /** Writes the bytes into the block that was found or allocated for them. */
    method PutBytes(ghost d0: seq<Block>, ghost n0: map<int, Inode>, ghost o0: map<int, Slot>, i: int,
        ghost bn: int, q: int, src: seq<int>, block: int)
      requires Good() && Grown(d0, n0, o0, i) && GainsOnly(d0, n0[i], disk, inodes[i], bn)
      requires 0 <= bn < MAXFILE && 0 <= q <= q + |src| <= BSIZE
      requires 0 < block < sb.size && DataAddr(disk, inodes[i], bn) == block
      modifies `disk, `logged
      ensures Good() && KeepsOthers(d0, n0, o0, disk, inodes, owner, i) && Free(sb, disk) == Free(sb, old(disk))
      ensures Patched(d0, n0[i], disk, inodes[i], bn * BSIZE + q, src)
      ensures GainsOnly(d0, n0[i], disk, inodes[i], bn) && DataAddr(disk, inodes[i], bn) == block
      ensures logged == old(logged) + {block} && Logs(old(disk), old(logged), disk, logged)
    {
      ghost var d1 := disk;
      disk := disk[block := Patch(disk[block], q, src)];
      logged := logged + {block};
      assert Recorded(owner, Addr(d1, inodes[i], DataSlot(bn)), Slot(i, DataSlot(bn)));
      WriteOwned(sb, d1, inodes, owner, disk, i, block, disk[block]);
      SameFree(d1, block);
      KeepsOthersTwice(d0, n0, o0, d1, inodes, owner, disk, inodes, owner, i);
      WritePatches(d0, n0[i], d1, i, bn, q, src);
      KeepsMapped(d1, inodes, owner, disk, inodes, owner, i);
      SameGains(d0, n0[i], d1, i, bn);
    }

    lemma SameGains(d0: seq<Block>, ino0: Inode, d1: seq<Block>, i: int, bn: int)
      requires i in inodes && GainsOnly(d0, ino0, d1, inodes[i], bn)
      requires forall k :: Addr(disk, inodes[i], k) == Addr(d1, inodes[i], k)
      ensures GainsOnly(d0, ino0, disk, inodes[i], bn)
    {
      forall b | b != bn
        ensures SameAddr(d0, ino0, disk, inodes[i], b)
      {
        assert SameAddr(d0, ino0, d1, inodes[i], b);
      }
    }

    lemma WritePatches(d0: seq<Block>, ino0: Inode, d1: seq<Block>, i: int, bn: int, q: int, src: seq<int>)
      requires Geometry(sb) && Owned(sb, d1, inodes, owner, {}) && DiskOk(sb, d1) && i in inodes
      requires KeepsData(d0, ino0, d1, inodes[i]) && 0 <= bn < MAXFILE && 0 <= q <= q + |src| <= BSIZE
      requires var a := DataAddr(d1, inodes[i], bn); 0 < a < sb.size && disk == d1[a := Patch(d1[a], q, src)]
      requires forall k :: Addr(disk, inodes[i], k) == Addr(d1, inodes[i], k)
      ensures Patched(d0, ino0, disk, inodes[i], bn * BSIZE + q, src)
    {
      var off := bn * BSIZE + q;
      var ino := inodes[i];
      forall b
        ensures DataAddr(d0, ino0, b) != 0 ==> DataAddr(disk, ino, b) != 0
      {
        assert DataAddr(disk, ino, b) == DataAddr(d1, ino, b);
      }
      forall p | 0 <= p < MAXFILE * BSIZE
        ensures off <= p < off + |src| ==> DataByte(disk, ino, p) == src[p - off]
        ensures !(off <= p < off + |src|) && DataAddr(d0, ino0, p / BSIZE) != 0 ==>
          DataByte(disk, ino, p) == DataByte(d0, ino0, p)
      {
        PatchesByte(d0, ino0, d1, i, bn, q, src, p);
      }
    }

    lemma PatchesByte(d0: seq<Block>, ino0: Inode, d1: seq<Block>, i: int, bn: int, q: int, src: seq<int>, p: int)
      requires Geometry(sb) && Owned(sb, d1, inodes, owner, {}) && DiskOk(sb, d1) && i in inodes
      requires KeepsData(d0, ino0, d1, inodes[i]) && 0 <= bn < MAXFILE && 0 <= q <= q + |src| <= BSIZE
      requires var a := DataAddr(d1, inodes[i], bn); 0 < a < sb.size && disk == d1[a := Patch(d1[a], q, src)]
      requires forall k :: Addr(disk, inodes[i], k) == Addr(d1, inodes[i], k)
      requires 0 <= p < MAXFILE * BSIZE
      ensures var off := bn * BSIZE + q;
        if off <= p < off + |src| then DataByte(disk, inodes[i], p) == src[p - off]
        else DataAddr(d0, ino0, p / BSIZE) != 0 ==> DataByte(disk, inodes[i], p) == DataByte(d0, ino0, p)
    {
      WriteByte(sb, d1, inodes, owner, disk, i, bn, q, src, p);
      assert DataAddr(d0, ino0, p / BSIZE) != 0 ==> DataByte(d1, inodes[i], p) == DataByte(d0, ino0, p);
    }

    /** A write of src at off, begun with disk d0, has come as far as o; x bounds what the indirect
        block has cost the transaction so far. */
    ghost predicate Underway(d0: seq<Block>, n0: map<int, Inode>, o0: map<int, Slot>, l0: set<int>, i: int,
        src: seq<int>, off: int, o: int, x: int)
      reads this
    {
      && Good() && i in inodes && i in n0 && 0 <= off <= n0[i].size <= MAXFILE * BSIZE
      && off <= o <= off + |src| <= MAXFILE * BSIZE
      && KeepsOthers(d0, n0, o0, disk, inodes, owner, i)
      && Progress(d0, n0[i], disk, inodes[i], off, o, src)
      && (o <= n0[i].size ==> inodes == n0)
      && Charged(l0, logged, inodes[i], off, o, x)
      && Spent(sb, d0, n0[i], disk, inodes[i], off / BSIZE, off / BSIZE + Touched(off, o))
      && Logs(d0, l0, disk, logged)
    }

    /** One turn of the loop of a write. */
    method WriteSome(ghost d0: seq<Block>, ghost n0: map<int, Inode>, ghost o0: map<int, Slot>, ghost l0: set<int>,
        i: int, src: seq<int>, off: int, o: int, m: int, ghost x: int) returns (ok: bool, o': int, ghost x': int)
      requires Underway(d0, n0, o0, l0, i, src, off, o, x)
      requires o < o + m <= off + |src| && o % BSIZE + m <= BSIZE && (o == off || o % BSIZE == 0)
      modifies `disk, `inodes, `owner, `logged
      ensures !ok ==> DiskFull(sb, disk) && Free(sb, d0) < WriteNeeds(d0, n0[i], off, |src|)
      ensures o' == o + m && (ok ==> Underway(d0, n0, o0, l0, i, src, off, o', x'))
    {
      ghost var d1, n1, o1, l1 := disk, inodes, owner, logged;
      o', x' := o + m, x;
      WriteAhead(d0, n0[i], d1, n1[i], off, o, m, src);
      ok := WriteBlock(i, o, src[o - off..o' - off]);
      if ok {
        KeepsOthersTwice(d0, n0, o0, d1, n1, o1, disk, inodes, owner, i);
        ProgressStep(d0, n0[i], d1, n1[i], disk, inodes[i], off, o, m, src);
        x' := ChargeTurn(l0, l1, logged, d1, n1[i], inodes[i], off, o, m, x);
        WriteSpent(d0, n0[i], d1, n1[i], off, o, o', inodes[i]);
        LogsTwice(d0, l0, d1, l1, disk, logged);
      }
    }

    lemma WriteSpent(d0: seq<Block>, ino0: Inode, d1: seq<Block>, ino1: Inode, off: int, o: int, o': int, ino: Inode)
      requires Spent(sb, d0, ino0, d1, ino1, off / BSIZE, off / BSIZE + Touched(off, o))
      requires off / BSIZE + Touched(off, o) == o / BSIZE && Touched(off, o') == Touched(off, o) + 1
      requires GainsOnly(d1, ino1, disk, ino, o / BSIZE)
      requires Free(sb, d1) == Free(sb, disk) + Needed(d1, ino1, o / BSIZE)
      ensures Spent(sb, d0, ino0, disk, ino, off / BSIZE, off / BSIZE + Touched(off, o'))
    {
      SpentStep(sb, d0, ino0, d1, ino1, disk, ino, off / BSIZE, o / BSIZE);
    }

    /** Before a turn: where the turn is, what is mapped there, and what the write takes if the
        block of the turn cannot be had. */
    lemma WriteAhead(d0: seq<Block>, ino0: Inode, d1: seq<Block>, ino1: Inode, off: int, o: int, m: int,
        src: seq<int>)
      requires 0 <= off <= o < o + m <= off + |src| && o % BSIZE + m <= BSIZE && (o == off || o % BSIZE == 0)
      requires off <= ino0.size && Progress(d0, ino0, d1, ino1, off, o, src)
      requires Spent(sb, d0, ino0, d1, ino1, off / BSIZE, off / BSIZE + Touched(off, o))
      ensures off / BSIZE + Touched(off, o) == o / BSIZE && Touched(off, o + m) == Touched(off, o) + 1
      ensures o < ino0.size || (o == off && off % BSIZE != 0) ==> DataAddr(d1, ino1, o / BSIZE) != 0
      ensures Free(sb, d1) < Needed(d1, ino1, o / BSIZE) ==> Free(sb, d0) < WriteNeeds(d0, ino0, off, |src|)
    {
      NextBlock(off, o);
      TouchStep(off, o, m);
      MappedAhead(d0, ino0, d1, ino1, off, o, src);
      NeedsAhead(d0, ino0, d1, ino1, off, o, m, |src|);
    }

    /** What is mapped where a turn writes. */
    lemma MappedAhead(d0: seq<Block>, ino0: Inode, d1: seq<Block>, ino1: Inode, off: int, o: int, src: seq<int>)
      requires 0 <= off <= o < off + |src| && off <= ino0.size && Progress(d0, ino0, d1, ino1, off, o, src)
      ensures o < ino0.size || (o == off && off % BSIZE != 0) ==> DataAddr(d1, ino1, o / BSIZE) != 0
    {
      assert o / BSIZE * BSIZE <= o;
    }

    /** What the write takes if the block of this turn cannot be had. */
    lemma NeedsAhead(d0: seq<Block>, ino0: Inode, d1: seq<Block>, ino1: Inode, off: int, o: int, m: int, n: int)
      requires 0 <= off <= o < o + m <= off + n && Touched(off, o + m) == Touched(off, o) + 1
      requires off / BSIZE + Touched(off, o) == o / BSIZE
      requires Spent(sb, d0, ino0, d1, ino1, off / BSIZE, o / BSIZE)
      ensures Free(sb, d1) < Needed(d1, ino1, o / BSIZE) ==> Free(sb, d0) < WriteNeeds(d0, ino0, off, n)
    {
      SpentNext(sb, d0, ino0, d1, ino1, off / BSIZE, o / BSIZE);
      TouchMore(off, o + m, off + n);
      LackingMore(d0, ino0, off / BSIZE, o / BSIZE + 1, off / BSIZE + Touched(off, off + n));
    }

    /** The loop of a write, block by block. */
    method WriteBytes(i: int, src: seq<int>, off: int) returns (ok: bool, o: int, ghost x: int)
      requires Good() && i in inodes && 0 <= off <= inodes[i].size && off + |src| <= MAXFILE * BSIZE
      modifies `disk, `inodes, `owner, `logged
      ensures !ok ==> DiskFull(sb, disk) && Free(sb, old(disk)) < old(WriteNeeds(disk, inodes[i], off, |src|))
      ensures ok ==> o == off + |src|
      ensures ok ==> Free(sb, old(disk)) == Free(sb, disk) + old(WriteNeeds(disk, inodes[i], off, |src|))
      ensures ok ==> Underway(old(disk), old(inodes), old(owner), old(logged), i, src, off, o, x)
    {
      var tot := 0;
      ok, o, x := true, off, 0;
      WriteStarts(i, src, off);
      while tot < |src|
        invariant 0 <= tot <= |src| && o == off + tot && (tot == 0 || tot == |src| || o % BSIZE == 0) && ok
        invariant Underway(old(disk), old(inodes), old(owner), old(logged), i, src, off, o, x)
      {
        var m := StepSize(o, |src| - tot);
        ok, o, x := WriteSome(old(disk), old(inodes), old(owner), old(logged), i, src, off, o, m, x);
        if !ok {
          return;
        }
        tot := tot + m;
      }
      WriteTook(old(disk), old(inodes[i]), inodes[i], off, o, |src|);
    }

    lemma WriteTook(d0: seq<Block>, ino0: Inode, ino: Inode, off: int, o: int, n: int)
      requires o == off + n && Spent(sb, d0, ino0, disk, ino, off / BSIZE, off / BSIZE + Touched(off, o))
      ensures Free(sb, d0) == Free(sb, disk) + WriteNeeds(d0, ino0, off, n)
    {
    }

    lemma WriteStarts(i: int, src: seq<int>, off: int)
      requires Good() && i in inodes && 0 <= off <= inodes[i].size && off + |src| <= MAXFILE * BSIZE
      ensures Underway(disk, inodes, owner, logged, i, src, off, off, 0)
    {
      assert Mapped(disk, inodes[i]);
      assert Touched(off, off) == 0;
    }

    function IBlock(inum: int): (n: int) {
      inum / (BSIZE / 64) + sb.inodestart
    }

    method Iupdate(i: int)
      requires i in inodes
      modifies `dinodes, `logged
      ensures dinodes == old(dinodes)[i := inodes[i]] && logged == old(logged) + {IBlock(i)}
    {
      dinodes := dinodes[i := inodes[i]];
      logged := logged + {IBlock(i)};
    }

    /** Writes src to inode i at off: the file's bytes from there on are replaced, and the
        file grows as far as the write reaches. */
    method Writei(i: int, src: seq<int>, off: int) returns (r: Outcome)
      requires Valid() && i in inodes && 0 <= off < U32 && |src| < U32
      modifies `disk, `inodes, `dinodes, `owner, `logged
      ensures r.Driver? <==> old(inodes[i].device)
      ensures r.Failed? <==> !old(inodes[i].device) && WriteRefused(old(inodes[i].size), off, |src|)
      ensures r.Driver? || r.Failed? ==>
                disk == old(disk) && inodes == old(inodes) && dinodes == old(dinodes) && logged == old(logged) &&
                    Valid()
      ensures r.Panic? <==>
                && !old(inodes[i].device) && !WriteRefused(old(inodes[i].size), off, |src|)
                && Free(sb, old(disk)) < old(WriteNeeds(disk, inodes[i], off, |src|))
      ensures r.Panic? ==> DiskFull(sb, disk)
      ensures r.Count? ==> Free(sb, old(disk)) == Free(sb, disk) + old(WriteNeeds(disk, inodes[i], off, |src|))
      ensures r.Count? ==> Valid() && i in inodes && r.n == |src| && !inodes[i].device
      ensures r.Count? ==> Contents(disk, inodes[i]) == Splice(old(Contents(disk, inodes[i])), off, src)
      ensures r.Count? ==> OthersSame(old(disk), old(inodes), disk, inodes, i)
      ensures r.Count? ==> |logged| <= |old(logged)| + LogCost(off, |src|)
      ensures r.Count? ==> Logs(old(disk), old(logged), disk, logged)
      ensures r.Count? && dinodes != old(dinodes) ==> IBlock(i) in logged
    {
      if inodes[i].device {
        return Driver;
      }
      var n := |src|;
      if off > inodes[i].size || (off + n) % U32 < off {
        return Failed;
      }
      if off + n > MAXFILE * BSIZE {
        return Failed;
      }
      ghost var x;
      var ok, o;
      ok, o, x := WriteBytes(i, src, off);
      if !ok {
        return Panic;
      }
      Finish(old(disk), old(inodes), old(owner), old(logged), i, src, off, o, x);
      return Count(n);
    }

    /** The end of a write that began with disk d0: records the file's new size. */
    method Finish(ghost d0: seq<Block>, ghost n0: map<int, Inode>, ghost o0: map<int, Slot>, ghost l0: set<int>,
        i: int, src: seq<int>, off: int, end: int, ghost x: int)
      requires Underway(d0, n0, o0, l0, i, src, off, end, x) && end == off + |src| && Named(d0, n0, o0) && dinodes == n0
      modifies `inodes, `dinodes, `logged
      ensures Valid() && i in inodes && inodes[i].device == n0[i].device
      ensures Contents(disk, inodes[i]) == Splice(Contents(d0, n0[i]), off, src)
      ensures OthersSame(d0, n0, disk, inodes, i)
      ensures |logged| <= |l0| + LogCost(off, |src|) && Logs(d0, l0, disk, logged)
      ensures dinodes != old(dinodes) ==> IBlock(i) in logged
    {
      ghost var n1 := inodes;
      if |src| > 0 && end > inodes[i].size {
        inodes := inodes[i := inodes[i].(size := end)];
        ResizeOwned(sb, disk, n1, inodes, owner, i, end);
        Iupdate(i);
        AddOne(old(logged), IBlock(i));
      }
      ProgressDone(d0, n0[i], disk, n1[i], inodes[i], off, src);
      KeepsOthersSame(d0, n0, o0, disk, inodes, owner, i);
      assert inodes == n0[i := inodes[i]] by {
        assert inodes.Keys == n0.Keys;
        assert forall j :: j in n0 && j != i ==> inodes[j] == n0[j];
      }
    }

    /** Reads up to n bytes of inode i at off, changing nothing. */
    method Readi(i: int, off: int, n: int) returns (r: Outcome, dst: seq<int>)
      requires Good() && i in inodes && 0 <= off < U32 && 0 <= n < U32
      modifies `disk, `inodes, `owner, `logged
      ensures disk == old(disk) && inodes == old(inodes) && owner == old(owner) && logged == old(logged)
      ensures r.Driver? <==> inodes[i].device
      ensures r.Failed? <==> !inodes[i].device && (off > inodes[i].size || off + n >= U32)
      ensures r.Driver? || r.Failed? || r == Count(Min(n, inodes[i].size - off))
      ensures r.Count? ==> dst == Contents(disk, inodes[i])[off..off + r.n]
    {
      dst := [];
      if inodes[i].device {
        return Driver, dst;
      }
      if off > inodes[i].size || (off + n) % U32 < off {
        return Failed, dst;
      }
      var left := n;
      if off + n > inodes[i].size {
        left := inodes[i].size - off;
      }
      var tot, o := 0, off;
      ghost var file := Contents(disk, inodes[i]);
      while tot < left
        invariant 0 <= tot <= left && o == off + tot
        invariant disk == old(disk) && inodes == old(inodes) && owner == old(owner) && logged == old(logged)
        invariant dst == file[off..o]
      {
        var m := StepSize(o, left - tot);
        var bytes := ReadBlock(i, o, m);
        SliceOn(file, off, o, o + m);
        dst := dst + bytes;
        tot, o := tot + m, o + m;
      }
      return Count(left), dst;
    }

    /** Reads bytes that lie in one block of the file, below its size. */
    method ReadBlock(i: int, o: int, m: int) returns (bytes: seq<int>)
      requires Good() && i in inodes && 0 <= o < o + m <= inodes[i].size && o % BSIZE + m <= BSIZE
      modifies `disk, `inodes, `owner, `logged
      ensures disk == old(disk) && inodes == old(inodes) && owner == old(owner) && logged == old(logged)
      ensures bytes == Contents(disk, inodes[i])[o..o + m]
    {
      assert DataAddr(disk, inodes[i], o / BSIZE) != 0 by {
        assert Mapped(disk, inodes[i]) && o / BSIZE * BSIZE <= o;
      }
      var r := Bmap(i, o / BSIZE);
      var q := o % BSIZE;
      bytes := disk[r.block].bytes[q..q + m];
      BytesOfBlock(disk, inodes[i], o, m, r.block);
    }

    /** Clears the bit of block b, or panics when it is clear already. */
    method Bfree(b: int) returns (ok: bool)
      requires Geometry(sb) && DiskOk(sb, disk) && sb.data <= b < sb.size
      modifies `disk, `logged
      ensures ok <==> Used(sb, old(disk), b)
      ensures !ok ==> disk == old(disk) && logged == old(logged)
      ensures ok ==> Marks(sb, old(disk), disk, b, false) && SameData(sb, old(disk), disk) && DiskOk(sb, disk)
      ensures ok ==> logged == old(logged) + {BBlock(sb, b)}
    {
      var n := BBlock(sb, b);
      BBlockIsMeta(sb, b);
      if !InUse(disk[n], b % BPB) {
        return false;
      }
      disk := disk[n := Mark(disk[n], b % BPB, false)];
      logged := logged + {n};
      return true;
    }

    /** Inode i may have lost blocks since then; the other files are as they were. */
    ghost predicate Shrunk(disk0: seq<Block>, inodes0: map<int, Inode>, owner0: map<int, Slot>, i: int)
      reads this
    {
      && Geometry(sb) && DiskOk(sb, disk) && InodesOk(inodes) && i in inodes
      && Owned(sb, disk, inodes, owner, {})
      && KeepsOthers(disk0, inodes0, owner0, disk, inodes, owner, i)
    }

    /** Frees a direct block of inode i. */
    method DropAddr(ghost d0: seq<Block>, ghost n0: map<int, Inode>, ghost o0: map<int, Slot>, i: int, k: int)
      requires Shrunk(d0, n0, o0, i) && 0 <= k < NDIRECT && inodes[i].addrs[k] != 0
      modifies `disk, `inodes, `owner, `logged
      ensures Shrunk(d0, n0, o0, i) && inodes == old(inodes[i := WithAddr(inodes[i], k, 0)])
      ensures SameData(sb, old(disk), disk) && logged == old(logged) + {BBlock(sb, old(inodes[i].addrs[k]))}
    {
      var b := inodes[i].addrs[k];
      ghost var d1, n1, o1 := disk, inodes, owner;
      ghost var n2 := inodes[i := WithAddr(inodes[i], k, 0)];
      DropOwned(sb, disk, inodes, n2, owner, i, k, b);
      var ok := Bfree(b);
      assert ok;
      inodes := inodes[i := WithAddr(inodes[i], k, 0)];
      owner := owner - {b};
      FreeLoose(sb, d1, disk, n2, owner, {b}, b);
      assert {b} - {b} == {};
      SameDataKeeps(sb, d1, n1, o1, disk, inodes, owner, i);
      KeepsOthersTwice(d0, n0, o0, d1, n1, o1, disk, inodes, owner, i);
    }

    /** Frees the indirect block of inode i and every block it names. */
    method DropIndex(ghost d0: seq<Block>, ghost n0: map<int, Inode>, ghost o0: map<int, Slot>, i: int)
      requires Shrunk(d0, n0, o0, i) && inodes[i].addrs[NDIRECT] != 0
      modifies `disk, `inodes, `owner, `logged
      ensures Shrunk(d0, n0, o0, i) && inodes == old(inodes[i := WithAddr(inodes[i], NDIRECT, 0)])
      ensures var x := old(inodes[i].addrs[NDIRECT]);
        && 0 < x < |old(disk)| && IsBlock(old(disk)[x]) && sb.data <= x
        && logged == old(logged) + WordBitmaps(sb, old(disk)[x], NINDIRECT) + {BBlock(sb, x)}
    {
      var x := inodes[i].addrs[NDIRECT];
      ghost var d1, n1, o1 := disk, inodes, owner;
      ghost var n2 := inodes[i := WithAddr(inodes[i], NDIRECT, 0)];
      IndexOwned(disk, inodes, owner, i);
      var bp := disk[x];
      ghost var l := {x} + Words(bp, 0);
      IndexDistinct(sb, disk, inodes, owner, i, x);
      DropIndexOwned(sb, disk, inodes, n2, owner, i, x, l);
      owner := owner - l;
      FreeWords(n2, i, x, bp);
      ghost var d2 := disk;
      var ok := Bfree(x);
      assert ok;
      inodes := inodes[i := WithAddr(inodes[i], NDIRECT, 0)];
      FreeLoose(sb, d2, disk, n2, owner, {x}, x);
      assert {x} - {x} == {};
      SameDataKeeps(sb, d1, n1, o1, disk, inodes, owner, i);
      KeepsOthersTwice(d0, n0, o0, d1, n1, o1, disk, inodes, owner, i);
    }

    method FreeWords(ghost view: map<int, Inode>, i: int, x: int, bp: Block)
      requires Geometry(sb) && DiskOk(sb, disk) && IsBlock(bp) && DistinctWords(bp, x)
      requires Owned(sb, disk, view, owner, {x} + Words(bp, 0))
      modifies `disk, `logged
      ensures Geometry(sb) && DiskOk(sb, disk) && SameData(sb, old(disk), disk)
      ensures Owned(sb, disk, view, owner, {x}) && sb.data <= x < sb.size && Used(sb, disk, x)
      ensures logged == old(logged) + WordBitmaps(sb, bp, NINDIRECT)
    {
      var j := 0;
      while j < NINDIRECT
        invariant 0 <= j <= NINDIRECT && DiskOk(sb, disk) && SameData(sb, old(disk), disk)
        invariant Owned(sb, disk, view, owner, {x} + Words(bp, j))
        invariant logged == old(logged) + WordBitmaps(sb, bp, j)
      {
        WordsStep(bp, x, j);
        WordBitmapsStep(sb, bp, j);
        if Word(bp, j) != 0 {
          ghost var d1 := disk;
          var ok := Bfree(Word(bp, j));
          assert ok;
          FreeLoose(sb, d1, disk, view, owner, {x} + Words(bp, j), Word(bp, j));
        }
        j := j + 1;
      }
      assert {x} + Words(bp, NINDIRECT) == {x};
      assert x in {x};
    }

    /** Discards the contents of inode i. Its blocks, and no others, become free, and no free
        block is ever freed. */
    method Itrunc(i: int)
      requires Valid() && i in inodes
      modifies `disk, `inodes, `dinodes, `owner, `logged
      ensures Valid() && i in inodes
      ensures inodes[i] == Inode(old(inodes[i].device), 0, seq(NDIRECT + 1, _ => 0))
      ensures Contents(disk, inodes[i]) == []
      ensures OthersSame(old(disk), old(inodes), disk, inodes, i)
      ensures forall k, a :: IsSlot(k) && a == old(Addr(disk, inodes[i], k)) != 0 ==> !Used(sb, disk, a)
      ensures forall a :: a in old(owner) && old(owner)[a].inum != i ==> Used(sb, disk, a)
      ensures logged == old(logged) + Bitmaps(sb, old(disk), old(inodes[i]), 0, NSLOT) + {IBlock(i)}
      ensures old(logged) == {} && sb.size <= (MAXOPBLOCKS - 1) * BPB ==> |logged| <= MAXOPBLOCKS
    {
      ghost var d0, n0, o0 := disk, inodes, owner;
      ghost var l0 := logged;
      DropAddrs(d0, n0, o0, i);
      ghost var l1 := logged;
      DropRest(d0, n0, o0, i);
      ghost var l2 := logged;
      SetEmpty(d0, n0, o0, i);
      SlotsInRange(d0, n0, o0, i);
      TruncLogs(sb, d0, n0[i], l0, l1, l2, logged, IBlock(i));
    }

    lemma SlotsInRange(d0: seq<Block>, n0: map<int, Inode>, o0: map<int, Slot>, i: int)
      requires Geometry(sb) && Owned(sb, d0, n0, o0, {}) && i in n0
      ensures forall k :: IsSlot(k) ==> 0 <= Addr(d0, n0[i], k) < sb.size
    {
      forall k | IsSlot(k)
        ensures 0 <= Addr(d0, n0[i], k) < sb.size
      {
        assert Recorded(o0, Addr(d0, n0[i], k), Slot(i, k));
      }
    }

    /** The direct blocks, in order. */
    method DropAddrs(ghost d0: seq<Block>, ghost n0: map<int, Inode>, ghost o0: map<int, Slot>, i: int)
      requires Shrunk(d0, n0, o0, i) && d0 == disk && n0 == inodes
      modifies `disk, `inodes, `owner, `logged
      ensures Shrunk(d0, n0, o0, i) && inodes[i].device == n0[i].device && SameData(sb, d0, disk)
      ensures forall j :: 0 <= j < NDIRECT ==> inodes[i].addrs[j] == 0
      ensures inodes[i].addrs[NDIRECT] == n0[i].addrs[NDIRECT]
      ensures logged == old(logged) + Bitmaps(sb, d0, n0[i], 0, NDIRECT)
    {
      var k := 0;
      while k < NDIRECT
        invariant 0 <= k <= NDIRECT
        invariant Shrunk(d0, n0, o0, i) && inodes[i].device == n0[i].device && SameData(sb, d0, disk)
        invariant forall j :: 0 <= j < k ==> inodes[i].addrs[j] == 0
        invariant forall j :: k <= j <= NDIRECT ==> inodes[i].addrs[j] == n0[i].addrs[j]
        invariant logged == old(logged) + Bitmaps(sb, d0, n0[i], 0, k)
      {
        BitmapsStep(sb, d0, n0[i], 0, k);
        if inodes[i].addrs[k] != 0 {
          DropAddr(d0, n0, o0, i, k);
        }
        k := k + 1;
      }
    }

    /** Then the indirect block and what it names. */
    method DropRest(ghost d0: seq<Block>, ghost n0: map<int, Inode>, ghost o0: map<int, Slot>, i: int)
      requires Shrunk(d0, n0, o0, i) && SameData(sb, d0, disk) && i in n0 && |n0[i].addrs| == NDIRECT + 1
      requires forall j :: 0 <= j < NDIRECT ==> inodes[i].addrs[j] == 0
      requires inodes[i].addrs[NDIRECT] == n0[i].addrs[NDIRECT]
      modifies `disk, `inodes, `owner, `logged
      ensures Shrunk(d0, n0, o0, i) && inodes[i].device == old(inodes[i].device)
      ensures forall j :: 0 <= j <= NDIRECT ==> inodes[i].addrs[j] == 0
      ensures logged == old(logged) + Bitmaps(sb, d0, n0[i], NDIRECT, NSLOT)
    {
      ghost var x := n0[i].addrs[NDIRECT];
      BitmapsSplit(sb, d0, n0[i], NDIRECT, NDIRECT + 1, NSLOT);
      BitmapsStep(sb, d0, n0[i], NDIRECT, NDIRECT);
      if inodes[i].addrs[NDIRECT] != 0 {
        DropIndex(d0, n0, o0, i);
        BitmapsOfWords(sb, d0, n0[i], x);
      }
    }

    /** The end of a truncation: records the size of the emptied inode. */
    method SetEmpty(ghost d0: seq<Block>, ghost n0: map<int, Inode>, ghost o0: map<int, Slot>, i: int)
      requires Shrunk(d0, n0, o0, i) && Named(d0, n0, o0) && Backed(sb, d0, n0, o0) && AllMapped(d0, n0) &&
        dinodes == n0
      requires forall j :: 0 <= j <= NDIRECT ==> inodes[i].addrs[j] == 0
      modifies `inodes, `dinodes, `logged
      ensures Valid() && i in inodes && inodes[i] == Inode(old(inodes[i].device), 0, seq(NDIRECT + 1, _ => 0))
      ensures OthersSame(d0, n0, disk, inodes, i)
      ensures forall a :: a in o0 ==> (Used(sb, disk, a) <==> o0[a].inum != i)
      ensures logged == old(logged) + {IBlock(i)}
    {
      ghost var n1 := inodes;
      inodes := inodes[i := inodes[i].(size := 0)];
      ResizeOwned(sb, disk, n1, inodes, owner, i, 0);
      Iupdate(i);
      assert inodes[i].addrs == seq(NDIRECT + 1, _ => 0);
      KeepsOthersSame(d0, n0, o0, disk, inodes, owner, i);
      EmptyMapped(d0, n0, o0, i);
      assert inodes == n0[i := inodes[i]] by {
        assert inodes.Keys == n0.Keys;
        assert forall j :: j in n0 && j != i ==> inodes[j] == n0[j];
      }
      AllReclaimed(d0, n0, o0, i);
    }

    lemma EmptyMapped(d0: seq<Block>, n0: map<int, Inode>, o0: map<int, Slot>, i: int)
      requires KeepsOthers(d0, n0, o0, disk, inodes, owner, i) && Named(d0, n0, o0) && AllMapped(d0, n0)
      requires i in inodes && inodes[i].size == 0
      ensures AllMapped(disk, inodes)
    {
      forall j | j in inodes
        ensures 0 <= inodes[j].size <= MAXFILE * BSIZE && Mapped(disk, inodes[j])
      {
        if j != i {
          OthersContents(d0, n0, o0, disk, inodes, owner, i, j);
        }
      }
    }

    lemma AllReclaimed(d0: seq<Block>, n0: map<int, Inode>, o0: map<int, Slot>, i: int)
      requires Geometry(sb) && KeepsOthers(d0, n0, o0, disk, inodes, owner, i) && Named(d0, n0, o0) &&
        Backed(sb, d0, n0, o0)
      requires Owned(sb, disk, inodes, owner, {})
      requires i in inodes && inodes[i].addrs == seq(NDIRECT + 1, _ => 0)
      ensures forall a :: a in o0 ==> (Used(sb, disk, a) <==> o0[a].inum != i)
    {
      forall a | a in o0
        ensures Used(sb, disk, a) <==> o0[a].inum != i
      {
        if o0[a].inum == i {
          Reclaimed(sb, d0, n0, o0, disk, inodes, owner, i, a);
        }
      }
    }

    /** The first n bytes of addr are in inode i's file, which held `file` when the write at
        off began. */
    ghost predicate Holds(i: int, file: seq<int>, off: int, addr: seq<int>, n: int)
      reads this
    {
      i in inodes && 0 <= inodes[i].size && Written(Contents(disk, inodes[i]), file, off, addr, n)
    }

    /** One transaction of a write through a file descriptor: the piece src, at off. */
    method WriteChunk(i: int, src: seq<int>, off: int) returns (r: Outcome)
      requires Valid() && i in inodes && 0 < |src| <= CHUNK && 0 <= off < U32
      modifies this
      ensures r.Driver? <==> old(inodes[i].device)
      ensures r.Failed? <==> !old(inodes[i].device) && WriteRefused(old(inodes[i].size), off, |src|)
      ensures r.Panic? ==> DiskFull(sb, disk) && transactions == old(transactions)
      ensures r.Driver? || r.Failed? ==>
        disk == old(disk) && inodes == old(inodes) && dinodes == old(dinodes) && Valid()
      ensures r.Count? ==> Valid() && i in inodes && !inodes[i].device
      ensures r.Count? ==> Contents(disk, inodes[i]) == Splice(old(Contents(disk, inodes[i])), off, src)
      ensures r.Count? ==> OthersSame(old(disk), old(inodes), disk, inodes, i)
      ensures !r.Panic? ==> transactions == old(transactions) + [logged] && |logged| <= MAXOPBLOCKS
      ensures !r.Panic? ==> Logs(old(disk), {}, disk, logged) && (dinodes != old(dinodes) ==> IBlock(i) in logged)
    {
      ChunkFits(off, |src|);
      logged := {};
      r := Writei(i, src, off);
      if !r.Panic? {
        transactions := transactions + [logged];
      }
    }

    /** After n bytes of a write through a file descriptor that began with disk d0 and inodes n0. */
    ghost predicate Stands(d0: seq<Block>, n0: map<int, Inode>, file: seq<int>, i: int, addr: seq<int>, off: int,
        n: int)
      reads this
    {
      Valid() && OthersSame(d0, n0, disk, inodes, i) && Holds(i, file, off, addr, n)
    }

    /** The transactions ended since the k-th are within the bound, and every block changed is in
        one of them. */
    ghost predicate Accounted(d0: seq<Block>, n0: map<int, Inode>, k: int, i: int)
      reads this
    {
      && 0 <= k && (forall t :: k <= t < |transactions| ==> |transactions[t]| <= MAXOPBLOCKS)
      && Covers(transactions, k, d0, disk)
      && (dinodes != n0 ==> InSome(transactions, k, IBlock(i)))
    }

    /** Between two transactions of it, after c of them. */
    ghost predicate Writing(d0: seq<Block>, n0: map<int, Inode>, k: int, file: seq<int>, i: int, addr: seq<int>,
        off: int, n: int, c: int)
      reads this
    {
      && i in n0 && Stands(d0, n0, file, i, addr, off, n)
      && Accounted(d0, n0, k, i) && 0 <= c && |transactions| == k + c && Pieces(c, n, |addr|)
      && (n == 0 ==> disk == d0 && inodes == n0) && (n > 0 ==> !n0[i].device && !inodes[i].device)
    }

    /** After c transactions of it and one that wrote nothing. */
    ghost predicate Stopped(d0: seq<Block>, n0: map<int, Inode>, k: int, file: seq<int>, i: int, addr: seq<int>,
        off: int, n: int, c: int)
      reads this
    {
      && Stands(d0, n0, file, i, addr, off, n)
      && Accounted(d0, n0, k, i) && |transactions| == k + c + 1 && c * CHUNK == n < |addr|
    }

    /** One turn of the loop of a write through a file descriptor. */
    method WriteNext(ghost d0: seq<Block>, ghost n0: map<int, Inode>, ghost k: int, ghost file: seq<int>, i: int,
        addr: seq<int>, off: int, n: int, ghost c: int) returns (r: Outcome, n': int, ghost c': int)
      requires Writing(d0, n0, k, file, i, addr, off, n, c) && n < |addr| < U32 / 2 && off < U32
      modifies this
      ensures n < n' <= |addr| && old(transactions) <= transactions
      ensures r.Panic? ==> DiskFull(sb, disk) && transactions == old(transactions)
      ensures r.Driver? <==> old(inodes[i].device)
      ensures r.Failed? <==> !old(inodes[i].device) && (off > |file| || off + n' > MAXFILE * BSIZE)
      ensures r.Driver? || r.Failed? ==> Stopped(d0, n0, k, file, i, addr, off, n, c) && disk == old(disk)
      ensures r.Driver? || r.Failed? ==> inodes == old(inodes)
      ensures r.Count? ==> Writing(d0, n0, k, file, i, addr, off, n', c')
    {
      n', c' := Min(|addr|, n + CHUNK), c + 1;
      ghost var c1, d1, m1, ts := Contents(disk, inodes[i]), disk, inodes, transactions;
      PiecesStep(c, n, |addr|, n');
      WrittenSize(c1, file, off, addr, n);
      ChunkRefused(|file|, inodes[i].size, off, |addr|, n, n');
      r := WriteChunk(i, addr[n..n'], off + n);
      if !r.Panic? {
        NowAccounted(d0, n0, k, i, d1, m1, ts);
      }
      if r.Count? {
        NowStands(d0, n0, file, i, addr, off, n, n', c1, d1, m1);
      }
    }

    lemma NowStands(d0: seq<Block>, n0: map<int, Inode>, file: seq<int>, i: int, addr: seq<int>, off: int, n: int,
        n': int, c1: seq<int>, d1: seq<Block>, m1: map<int, Inode>)
      requires Valid() && i in inodes && OthersSame(d0, n0, d1, m1, i) && OthersSame(d1, m1, disk, inodes, i)
      requires Written(c1, file, off, addr, n) && n < n' <= |addr| && off + n' <= MAXFILE * BSIZE
      requires off <= |file| && off + n <= |c1|
      requires Contents(disk, inodes[i]) == Splice(c1, off + n, addr[n..n'])
      ensures Stands(d0, n0, file, i, addr, off, n')
    {
      WrittenMore(c1, file, off, addr, n, n', Contents(disk, inodes[i]));
      OthersSameTwice(d0, n0, d1, m1, disk, inodes, i);
    }

    /** One more transaction ended. */
    lemma NowAccounted(d0: seq<Block>, n0: map<int, Inode>, k: int, i: int, d1: seq<Block>, e1: map<int, Inode>,
        ts: seq<set<int>>)
      requires 0 <= k <= |ts| && transactions == ts + [logged] && |logged| <= MAXOPBLOCKS
      requires forall t :: k <= t < |ts| ==> |ts[t]| <= MAXOPBLOCKS
      requires Covers(ts, k, d0, d1) && Logs(d1, {}, disk, logged)
      requires (e1 != n0 ==> InSome(ts, k, IBlock(i))) && (dinodes != e1 ==> IBlock(i) in logged)
      ensures Accounted(d0, n0, k, i)
    {
      CoversMore(ts, k, d0, d1, logged, disk);
      InodeCovered(ts, k, n0, e1, i);
    }

    /** A write through a file descriptor: cuts addr into pieces that each fit a transaction. */
    method FileWrite(i: int, addr: seq<int>, off: int) returns (r: Outcome, off': int, n: int)
      requires Valid() && i in inodes && 0 <= off < U32 && |addr| < U32 / 2
      modifies this
      ensures off' == off + n && 0 <= n <= |addr|
      ensures r.Panic? ==> DiskFull(sb, disk)
      ensures r.Driver? <==> |addr| > 0 && old(inodes[i].device)
      ensures r.Driver? ==> disk == old(disk) && inodes == old(inodes) && n == 0
      ensures r.Count? ==> r.n == n == |addr|
      ensures r.Failed? ==> |addr| > 0 && (off > old(inodes[i].size) || off + |addr| > MAXFILE * BSIZE)
      ensures r.Count? && |addr| > 0 ==> off <= old(inodes[i].size) && off + |addr| <= MAXFILE * BSIZE
      ensures !r.Panic? ==> Stands(old(disk), old(inodes), old(Contents(disk, inodes[i])), i, addr, off, n)
      ensures !r.Panic? ==> Accounted(old(disk), old(inodes), |old(transactions)|, i)
      ensures old(transactions) <= transactions
      ensures forall t :: |old(transactions)| <= t < |transactions| ==> |transactions[t]| <= MAXOPBLOCKS
      ensures r.Count? ==> |transactions| - |old(transactions)| == (|addr| + CHUNK - 1) / CHUNK
      ensures r.Failed? ==> (|transactions| - |old(transactions)| - 1) * CHUNK == n < |addr|
    {
      n, off' := 0, off;
      ghost var d0, n0, file, k, c := disk, inodes, Contents(disk, inodes[i]), |transactions|, 0;
      OthersSameSelf(disk, inodes, i);
      while n < |addr|
        invariant off' == off + n && 0 <= n <= |addr| && old(transactions) <= transactions
        invariant Writing(d0, n0, k, file, i, addr, off, n, c)
      {
        var n';
        r, n', c := WriteNext(d0, n0, k, file, i, addr, off, n, c);
        if !r.Count? {
          return;
        }
        n, off' := n', off + n';
      }
      PiecesDone(c, |addr|);
      r := Count(|addr|);
    }

    lemma InodeCovered(ts: seq<set<int>>, k: int, e0: map<int, Inode>, e1: map<int, Inode>, i: int)
      requires 0 <= k <= |ts| && transactions == ts + [logged]
      requires e1 != e0 ==> InSome(ts, k, IBlock(i))
      requires dinodes != e1 ==> IBlock(i) in logged
      ensures dinodes != e0 ==> InSome(transactions, k, IBlock(i))
    {
      if IBlock(i) in logged {
        assert IBlock(i) in transactions[|ts|];
      } else if e1 != e0 {
        var t :| k <= t < |ts| && IBlock(i) in ts[t];
        assert IBlock(i) in transactions[t];
      }
    }
  }
}

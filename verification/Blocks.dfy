/** The bytes of a disk block, read as bytes, as 32-bit little-endian words (an indirect
    block) and as bits (a block of the free bitmap). */
module Blocks {

  const BSIZE: int := 512
  const NINDIRECT: int := 128
  const BPB: int := 4096
  const U32: int := 0x1_0000_0000

  datatype Block = Block(bytes: seq<int>)

  predicate IsBlock(b: Block) {
    |b.bytes| == BSIZE
  }

  function ZeroBlock(): (b: Block)
    ensures IsBlock(b)
  {
    Block(seq(BSIZE, _ => 0))
  }

  // ---------- words ----------

  function Word(b: Block, i: int): (w: int)
    requires IsBlock(b) && 0 <= i < NINDIRECT
  {
    b.bytes[4 * i] + 0x100 * b.bytes[4 * i + 1] + 0x1_0000 * b.bytes[4 * i + 2] + 0x100_0000 * b.bytes[4 * i + 3]
  }

  function PutWord(b: Block, i: int, w: int): (b': Block)
    requires IsBlock(b) && 0 <= i < NINDIRECT
    ensures IsBlock(b')
  {
    Block(b.bytes[4 * i := w % 0x100][4 * i + 1 := w / 0x100 % 0x100]
                 [4 * i + 2 := w / 0x1_0000 % 0x100][4 * i + 3 := w / 0x100_0000])
  }

  lemma WordPut(b: Block, i: int, w: int, j: int)
    requires IsBlock(b) && 0 <= i < NINDIRECT && 0 <= j < NINDIRECT && 0 <= w < U32
    ensures Word(PutWord(b, i, w), j) == if j == i then w else Word(b, j)
  {
  }

  lemma WordZero(i: int)
    requires 0 <= i < NINDIRECT
    ensures Word(ZeroBlock(), i) == 0
  {
  }

  // ---------- bits ----------

  /** Bit `k` of a byte: what masking with `1 << k` tests. */
  predicate Bit(x: int, k: int)
    requires 0 <= k
    decreases k
  {
    if k == 0 then x % 2 == 1 else Bit(x / 2, k - 1)
  }

  /** The byte with bit `k` set or cleared: `x | 1 << k` and `x & ~(1 << k)`. */
  function WithBit(x: int, k: int, v: bool): (y: int)
    requires 0 <= k
    decreases k
  {
    if k == 0 then x / 2 * 2 + (if v then 1 else 0) else WithBit(x / 2, k - 1, v) * 2 + x % 2
  }

  lemma {:induction false} BitWith(x: int, k: int, v: bool, j: int)
    requires 0 <= k && 0 <= j
    ensures Bit(WithBit(x, k, v), j) == if j == k then v else Bit(x, j)
    decreases k
  {
    var y := WithBit(x, k, v);
    if k == 0 {
      assert y / 2 == x / 2;
    } else {
      assert y / 2 == WithBit(x / 2, k - 1, v) && y % 2 == x % 2;
      if j > 0 {
        BitWith(x / 2, k - 1, v, j - 1);
      }
    }
  }

  predicate InUse(b: Block, bi: int)
    requires IsBlock(b) && 0 <= bi < BPB
  {
    Bit(b.bytes[bi / 8], bi % 8)
  }

  function Mark(b: Block, bi: int, v: bool): (b': Block)
    requires IsBlock(b) && 0 <= bi < BPB
    ensures IsBlock(b')
  {
    Block(b.bytes[bi / 8 := WithBit(b.bytes[bi / 8], bi % 8, v)])
  }

  lemma InUseMark(b: Block, bi: int, v: bool, bj: int)
    requires IsBlock(b) && 0 <= bi < BPB && 0 <= bj < BPB
    ensures InUse(Mark(b, bi, v), bj) == if bj == bi then v else InUse(b, bj)
  {
    if bj / 8 == bi / 8 {
      BitWith(b.bytes[bi / 8], bi % 8, v, bj % 8);
    }
  }
}

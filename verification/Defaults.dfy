/**
 * The compile-time constants meet the hypotheses of the general results.
 */
module Defaults {
  import opened Bits
  import Q = SpscModel
  import B = Backoff
  import opened PoolLayout

  const QUEUE_CAPACITY: nat := 1024
  const POOL_BLOCK_SIZE: nat := 4096
  const POOL_NUM_BLOCKS: nat := 256
  const MAX_ALIGN: nat := 16

  /** 100 ms doubling up to 30 s, ten attempts. */
  const BACKOFF: B.Config := B.Config(100, 30000, 2, 1, 10)

  lemma QueueCapacityIsGood()
    ensures PassesPowerOfTwoTest(QUEUE_CAPACITY) && Q.GoodCapacity(QUEUE_CAPACITY)
  {
    assert Pow2(10) == QUEUE_CAPACITY;
    PowerPassesTest(10);
  }

  /** The shipped delays: doubling, then 30 s from the tenth attempt on. */
  lemma BackoffIsGood(k: nat)
    ensures B.Growing(BACKOFF)
    ensures B.Delay(BACKOFF, k) == Min(100 * Pow2(k), 30000)
    ensures k >= 9 ==> B.Delay(BACKOFF, k) == 30000
  {
    B.DoublesUpToTheCap(BACKOFF, k);
    if k >= 9 {
      assert Pow2(9) == 512;
      PowMonotone(9, k);
    }
  }

  /** The shipped block size is already aligned, and the pool is valid wherever its megabyte is placed. */
  lemma PoolIsGood(l: Layout)
    requires l.numBlocks == POOL_NUM_BLOCKS && l.blockSize == POOL_BLOCK_SIZE
    requires MAX_ALIGN <= Pow2(WIDTH) && l.stride == AlignedBlockSize(l.blockSize, MAX_ALIGN)
    requires 0 < l.base && l.base + POOL_BLOCK_SIZE * POOL_NUM_BLOCKS <= ADDRESSES
    ensures l.stride == POOL_BLOCK_SIZE && ValidLayout(l)
  {
    assert Pow2(4) == MAX_ALIGN;
    assert Pow2(13) == 8192;
    PowMonotone(13, WIDTH);
    RoundsUpToAlignment(l.blockSize, 4, WIDTH);
    AlignedSizeIsKept(l.stride, l.blockSize, MAX_ALIGN);
    OffsetIsProduct(l, l.numBlocks);
  }

  lemma AlignedSizeIsKept(r: nat, size: nat, a: nat)
    requires a > 0 && IsRoundedUp(r, size, a) && size % a == 0
    ensures r == size
  {}
}

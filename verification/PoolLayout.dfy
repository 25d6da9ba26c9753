/**
 * Memory layout of the fixed-block pool: the rounded block size, block addresses, and
 * the links of the free list encoded in the first bytes of the free blocks.
 */
module PoolLayout {
  import opened Bits

  type Byte = x: int | 0 <= x < 256

  /** Size of a pointer in bytes. */
  const PTR: nat := 8

  /** Number of addresses that fit a pointer. */
  const ADDRESSES: nat := 0x1_0000_0000_0000_0000

  // ---- Block size ----

  /** `(size + align - 1) & ~(align - 1)` modulo a machine word. */
  function AlignUp(size: nat, align: nat, word: nat): nat
    requires 0 < align <= word
  {
    And((size + align - 1) % word, word - align)
  }

  /** `kAlignedBlockSize`, computed on 64-bit words. */
  function AlignedBlockSize(size: nat, align: nat): nat
    requires 0 < align <= Pow2(WIDTH)
  {
    AlignUp(size, align, Pow2(WIDTH))
  }

  /** `r` is the least multiple of `a` that is at least `size`. */
  ghost predicate IsRoundedUp(r: nat, size: nat, a: nat)
    requires a > 0
  {
    r % a == 0 && r >= size && forall m: nat :: m % a == 0 && m >= size ==> r <= m
  }

  /**
   * As long as the addition does not wrap, the rounded size is the least multiple of the
   * alignment that is at least the block size.
   */
  lemma RoundsUpToAlignment(size: nat, k: nat, w: nat)
    requires k <= w && size + Pow2(k) - 1 < Pow2(w)
    ensures Pow2(k) <= Pow2(w) && IsRoundedUp(AlignUp(size, Pow2(k), Pow2(w)), size, Pow2(k))
  {
    var x := size + Pow2(k) - 1;
    ModBelow(x, Pow2(w));
    ComplementMaskClears(x, k, w);
    ClearedIsLeastMultiple(size, Pow2(k));
  }

  lemma ClearedIsLeastMultiple(size: nat, a: nat)
    requires a > 0
    ensures IsRoundedUp(size + a - 1 - (size + a - 1) % a, size, a)
  {
    var x := size + a - 1;
    DivisionEquation(x, a);
    DivModUnique(x - x % a, a, x / a, 0);
    forall m: nat | m % a == 0 && m >= size
      ensures x - x % a <= m
    {
      LeastMultiple(size, a, m);
    }
  }

  lemma LeastMultiple(size: nat, a: nat, m: nat)
    requires a > 0 && m % a == 0 && m >= size
    ensures size + a - 1 - (size + a - 1) % a <= m
  {
    var x := size + a - 1;
    DivisionEquation(x, a);
    DivisionEquation(m, a);
    var d := x / a - m / a;
    assert a * (x / a) == a * (m / a) + a * d;
    MultiplesAreSpaced(a, d);
    if d == 0 {
      assert a * d == 0;
    }
  }

  /** If it wraps, the rounded size is zero, so rounding is right exactly when it does not wrap. */
  lemma RoundingFailsOnlyByWrapping(size: nat, k: nat, w: nat)
    requires k <= w && 0 < size < Pow2(w)
    ensures Pow2(k) <= Pow2(w)
    ensures AlignUp(size, Pow2(k), Pow2(w)) >= size <==> size + Pow2(k) - 1 < Pow2(w)
  {
    PowMonotone(k, w);
    if size + Pow2(k) - 1 < Pow2(w) {
      RoundsUpToAlignment(size, k, w);
    } else {
      var x := size + Pow2(k) - 1 - Pow2(w);
      DivModUnique(size + Pow2(k) - 1, Pow2(w), 1, x);
      ComplementMaskClears(x, k, w);
      ModBelow(x, Pow2(k));
    }
  }

  // ---- Links ----

  function Encode(v: nat, n: nat): (r: seq<Byte>)
    ensures |r| == n
  {
    if n == 0 then [] else [v % 256] + Encode(v / 256, n - 1)
  }

  function Decode(b: seq<Byte>): nat {
    if b == [] then 0 else b[0] + 256 * Decode(b[1..])
  }

  function Pow256(n: nat): (r: nat)
    ensures r > 0
  {
    if n == 0 then 1 else 256 * Pow256(n - 1)
  }

  lemma PointersFill(v: nat)
    requires v < ADDRESSES
    ensures v < Pow256(PTR)
  {
    assert Pow256(4) == 0x1_0000_0000;
    assert Pow256(8) == 0x1_0000_0000 * Pow256(4);
  }

  /** A link written to memory is read back. */
  lemma {:induction false} LinkRoundTrip(v: nat, n: nat)
    requires v < Pow256(n)
    ensures Decode(Encode(v, n)) == v
  {
    if n > 0 {
      LinkRoundTrip(v / 256, n - 1);
      assert Encode(v, n)[1..] == Encode(v / 256, n - 1);
    }
  }

  /** Bytes read as a link and written again are unchanged. */
  lemma {:induction false} LinkRewrite(b: seq<Byte>)
    ensures Encode(Decode(b), |b|) == b
    ensures Decode(b) < Pow256(|b|)
  {
    if b != [] {
      LinkRewrite(b[1..]);
      assert Decode(b) % 256 == b[0] && Decode(b) / 256 == Decode(b[1..]);
      assert b == [b[0]] + b[1..];
    }
  }

  // ---- Blocks ----

  /** `stride` is the rounded block size, `base` the address of the storage. */
  datatype Layout = Layout(blockSize: nat, stride: nat, numBlocks: nat, base: nat)

  /** A link fits a block, a block fits its stride, and the storage lies in the address space above null. */
  predicate ValidLayout(l: Layout) {
    && PTR <= l.blockSize <= l.stride && 0 < l.numBlocks
    && 0 < l.base && l.base + Offset(l, l.numBlocks) <= ADDRESSES
  }

  /** The layout the pool computes from its template arguments. */
  function PoolLayoutOf(size: nat, align: nat, numBlocks: nat, base: nat): Layout
    requires 0 < align <= Pow2(WIDTH)
  {
    Layout(size, AlignedBlockSize(size, align), numBlocks, base)
  }

  /** The static assertions and an allocation that succeeded make it valid. */
  lemma RoundedLayoutIsValid(size: nat, k: nat, numBlocks: nat, base: nat)
    requires k < WIDTH && PTR <= size && size + Pow2(k) - 1 < Pow2(WIDTH) && 0 < numBlocks
    ensures Pow2(k) <= Pow2(WIDTH)
    ensures var l := PoolLayoutOf(size, Pow2(k), numBlocks, base);
      0 < base && base + l.numBlocks * l.stride <= ADDRESSES ==> ValidLayout(l)
  {
    RoundsUpToAlignment(size, k, WIDTH);
    OffsetIsProduct(PoolLayoutOf(size, Pow2(k), numBlocks, base), numBlocks);
  }

  /** `i * kAlignedBlockSize`, by repeated addition. */
  function Offset(l: Layout, i: nat): nat {
    if i == 0 then 0 else Offset(l, i - 1) + l.stride
  }

  lemma {:induction false} OffsetIsProduct(l: Layout, i: nat)
    ensures Offset(l, i) == i * l.stride
  {
    if i > 0 {
      OffsetIsProduct(l, i - 1);
      assert i * l.stride == (i - 1) * l.stride + l.stride;
    }
  }

  function Address(l: Layout, i: nat): nat { l.base + Offset(l, i) }

  /** Different blocks do not overlap. */
  lemma {:induction false} BlocksAreApart(l: Layout, i: nat, j: nat)
    requires i < j
    ensures Offset(l, i) + l.stride <= Offset(l, j)
  {
    if i + 1 < j {
      BlocksAreApart(l, i, j - 1);
    }
  }

  lemma BlocksAreDisjoint(l: Layout, i: nat, j: nat)
    requires i != j
    ensures Offset(l, i) + l.stride <= Offset(l, j) || Offset(l, j) + l.stride <= Offset(l, i)
  {
    if i < j {
      BlocksAreApart(l, i, j);
    } else {
      BlocksAreApart(l, j, i);
    }
  }

  /** A block lies inside the storage. */
  lemma BlockInStorage(l: Layout, i: nat)
    requires i < l.numBlocks
    ensures Offset(l, i) + l.stride <= Offset(l, l.numBlocks)
  {
    BlocksAreApart(l, i, l.numBlocks);
  }
}

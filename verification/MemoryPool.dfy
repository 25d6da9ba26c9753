/**
 * The pool and its owning handle as objects over one byte array.
 */
module MemoryPool {
  import opened PoolLayout
  import opened PoolModel

  class MemoryPool {
    const layout: Layout
    const storage: array<Byte>
    var freeHead: nat
    var freeCount: int
    ghost var out: set<nat>  // pointers handed out and not returned

    ghost function State(): Machine
      reads this, storage
    {
      Machine(Pool(storage[..], freeHead, freeCount), out)
    }

    ghost predicate Valid()
      reads this, storage
    {
      ValidLayout(layout) && Inv(layout, State())
    }

    /** Links all blocks, last one first. */
    constructor (l: Layout)
      requires ValidLayout(l)
      ensures layout == l && Valid() && IsFresh(layout, State()) && fresh(storage)
    {
      layout := l;
      OffsetIsProduct(l, l.numBlocks);
      var bytes := new Byte[l.stride * l.numBlocks](_ => 0);
      storage := bytes;
      freeHead, freeCount := 0, l.numBlocks;
      out := {};
      new;
      var i := l.numBlocks;
      while i > 0
        invariant 0 <= i <= l.numBlocks && fresh(storage)
        invariant freeCount == l.numBlocks && out == {}
        invariant IsFreeList(l, Pool(storage[..], freeHead, l.numBlocks - i), BlocksFrom(i, l.numBlocks))
      {
        LinkBlock(i);
        i := i - 1;
      }
      FreshInv(layout, State());
    }

    /** One round of the construction loop: block `i - 1` becomes the head of the list. */
    method LinkBlock(i: nat)
      requires ValidLayout(layout) && 0 < i <= layout.numBlocks
      requires var n := layout.numBlocks;
        IsFreeList(layout, Pool(storage[..], freeHead, n - i), BlocksFrom(i, n))
      modifies storage, this`freeHead
      ensures var n := layout.numBlocks;
        IsFreeList(layout, Pool(storage[..], freeHead, n - i + 1), BlocksFrom(i - 1, n))
    {
      ghost var p := Pool(storage[..], freeHead, layout.numBlocks - i);
      NextToLink(layout, p, i);
      var at := (i - 1) * layout.stride;
      StoreBytes(at, Encode(freeHead, PTR));
      freeHead := layout.base + at;
    }

    method StoreBytes(at: nat, bytes: seq<Byte>)
      requires at + |bytes| <= storage.Length
      modifies storage
      ensures storage[..] == WriteBytes(old(storage[..]), at, bytes)
    {
      ghost var before := storage[..];
      for k := 0 to |bytes|
        invariant storage[..] == WriteBytes(before, at, bytes[..k])
      {
        ghost var now := storage[..];
        storage[at + k] := bytes[k];
        assert storage[..] == now[at + k := bytes[k]];
        WriteOneMore(before, at, bytes, k);
      }
      assert bytes[..|bytes|] == bytes;
    }

    /** Null exactly when every block is out; otherwise a pointer nobody holds. */
    method Allocate() returns (ptr: nat)
      requires Valid()
      modifies this
      ensures Valid() && State() == Step(layout, old(State()), Alloc)
      ensures ptr == PoolModel.Allocate(layout, old(State()).pool).1 && ptr !in old(out)
      ensures ptr == 0 <==> old(freeCount) == 0
      ensures out == (if ptr == 0 then old(out) else old(out) + {ptr})
    {
      InvAnswers(layout, State());
      StepKeepsInv(layout, State(), Alloc);
      if freeHead == 0 {
        return 0;
      }
      HeadInStorage(layout, State());
      ptr := freeHead;
      var at := freeHead - layout.base;
      freeHead := Decode(storage[at..at + PTR]);
      freeCount := freeCount - 1;
      out := out + {ptr};
    }

    /** The caller must hold the pointer: `owns` alone does not make this safe. */
    method Deallocate(ptr: nat)
      requires Valid() && (ptr == 0 || ptr in out)
      modifies this, storage
      ensures Valid()
      ensures State() == if ptr == 0 then old(State()) else Step(layout, old(State()), Free(ptr))
    {
      if ptr == 0 {
        return;
      }
      StepKeepsInv(layout, State(), Free(ptr));
      HeldInStorage(layout, State(), ptr);
      StoreBytes(ptr - layout.base, Encode(freeHead, PTR));
      freeHead := ptr;
      freeCount := freeCount + 1;
      out := out - {ptr};
    }

    /** True of every address inside the storage, block starts or not, free or not. */
    method Owns(ptr: nat) returns (r: bool)
      requires Valid()
      ensures r <==> layout.base <= ptr < layout.base + storage.Length
      ensures r <==> PoolModel.Owns(layout, ptr)
    {
      StorageSize(layout, State());
      r := ptr >= layout.base && ptr < layout.base + layout.stride * layout.numBlocks;
    }

    /** A holder writes to its block. */
    method Write(ptr: nat, off: nat, bytes: seq<Byte>)
      requires Valid() && ptr in out && off + |bytes| <= layout.blockSize
      modifies storage
      ensures Valid() && State() == Step(layout, old(State()), PoolModel.Write(ptr, off, bytes))
      ensures layout.base <= ptr && ptr - layout.base + off + |bytes| <= storage.Length
      ensures storage[ptr - layout.base + off..ptr - layout.base + off + |bytes|] == bytes
    {
      ghost var m := State();
      StepKeepsInv(layout, m, PoolModel.Write(ptr, off, bytes));
      HeldInStorage(layout, m, ptr);
      WriteIsReadBack(layout, m, ptr, off, bytes);
      var at := ptr - layout.base + off;
      assert OffsetOf(layout, ptr) + off == at;
      StoreBytes(at, bytes);
      assert storage[at..at + |bytes|] == storage[..][at..at + |bytes|];
    }
  }

  /** One more byte of a write. */
  lemma WriteOneMore(storage: seq<Byte>, at: nat, bytes: seq<Byte>, k: nat)
    requires k < |bytes| && at + |bytes| <= |storage|
    ensures WriteBytes(storage, at, bytes[..k])[at + k := bytes[k]] == WriteBytes(storage, at, bytes[..k + 1])
  {}

  /** Linking block `i - 1` in front of the blocks from `i` on. */
  lemma NextToLink(l: Layout, p: Pool, i: nat)
    requires ValidLayout(l) && 0 < i <= l.numBlocks && IsFreeList(l, p, BlocksFrom(i, l.numBlocks))
    ensures (i - 1) * l.stride == Offset(l, i - 1)
    ensures var at := Offset(l, i - 1);
      && at + PTR <= |p.storage|
      && IsFreeList(l, Pool(WriteBytes(p.storage, at, Encode(p.head, PTR)), l.base + at, p.count + 1),
                    BlocksFrom(i - 1, l.numBlocks))
  {
    OffsetIsProduct(l, i - 1);
    BlockInStorage(l, i - 1);
    AddressIsPositive(l, i - 1);
    DeallocatePushes(l, p, BlocksFrom(i, l.numBlocks), i - 1);
    assert [i - 1] + BlocksFrom(i, l.numBlocks) == BlocksFrom(i - 1, l.numBlocks);
  }

  lemma StorageSize(l: Layout, m: Machine)
    requires Inv(l, m)
    ensures |m.pool.storage| == l.stride * l.numBlocks
  {
    OffsetIsProduct(l, l.numBlocks);
  }

  lemma HeadInStorage(l: Layout, m: Machine)
    requires ValidLayout(l) && Inv(l, m) && m.pool.head != 0
    ensures l.base <= m.pool.head && m.pool.head - l.base + PTR <= |m.pool.storage|
  {
    var free :| IsFreeList(l, m.pool, free) && Partition(l, free, m.out);
    BlockInStorage(l, free[0]);
  }

  lemma HeldInStorage(l: Layout, m: Machine, ptr: nat)
    requires ValidLayout(l) && Inv(l, m) && ptr in m.out
    ensures 0 < l.base <= ptr && ptr - l.base + l.stride <= |m.pool.storage|
    ensures PTR <= l.blockSize <= l.stride
  {
    var free :| IsFreeList(l, m.pool, free) && Partition(l, free, m.out);
    var b: nat :| b < l.numBlocks && ptr == Address(l, b);
    BlockInStorage(l, b);
  }

  /** The owning handle; it never changes which pool it is bound to. */
  class PoolPtr {
    const pool: MemoryPool
    var ptr: nat

    ghost predicate Valid()
      reads this, pool, pool.storage
    {
      pool.Valid() && (ptr == 0 || ptr in pool.out)
    }

    constructor (p: MemoryPool)
      requires p.Valid()
      modifies p
      ensures pool == p && Valid() && p.State() == Step(p.layout, old(p.State()), Alloc)
      ensures ptr == 0 <==> old(p.freeCount) == 0
      ensures ptr !in old(p.out) && p.out == (if ptr == 0 then old(p.out) else old(p.out) + {ptr})
    {
      pool := p;
      ptr := 0;
      new;
      ptr := p.Allocate();
    }

    /** The pointer moves to the new handle. */
    constructor Move(other: PoolPtr)
      requires other.Valid()
      modifies other
      ensures pool == other.pool && ptr == old(other.ptr) && other.ptr == 0 && Valid()
    {
      pool := other.pool;
      ptr := other.ptr;
      new;
      other.ptr := 0;
    }

    /** The held block, if any, goes back; then the pointer moves.  Self-assignment does nothing. */
    method Assign(other: PoolPtr)
      requires Valid()
      modifies this, other, pool, pool.storage
      ensures this == other ==> ptr == old(ptr) && pool.State() == old(pool.State())
      ensures this != other ==> ptr == old(other.ptr) && other.ptr == 0
      ensures this != other && old(ptr) == 0 ==> pool.State() == old(pool.State())
      ensures this != other && old(ptr) != 0 ==> pool.State() == Step(pool.layout, old(pool.State()), Free(old(ptr)))
      ensures pool.Valid()
      ensures Valid() <==>
        this == other || old(other.ptr) == 0 || (old(other.ptr) in old(pool.out) && old(other.ptr) != old(ptr))
    {
      if this != other {
        if ptr != 0 {
          pool.Deallocate(ptr);
        }
        ptr := other.ptr;
        other.ptr := 0;
      }
    }

    /** The caller takes over the block. */
    method Release() returns (p: nat)
      requires Valid()
      modifies this
      ensures p == old(ptr) && ptr == 0 && Valid()
    {
      p := ptr;
      ptr := 0;
    }

    method Destroy()
      requires Valid()
      modifies pool, pool.storage
      ensures pool.Valid()
      ensures pool.State() ==
        if ptr == 0 then old(pool.State()) else Step(pool.layout, old(pool.State()), Free(ptr))
    {
      if ptr != 0 {
        pool.Deallocate(ptr);
      }
    }
  }

  /**
   * The `bench` loop: one handle for each message, filled and destroyed before the next.
   * With one free block at the start it never meets an exhausted pool, however many
   * messages there are, and it leaves no block behind.
   */
  method BenchLoop(pool: MemoryPool, messages: seq<seq<Byte>>) returns (sent: nat)
    requires pool.Valid()
    modifies pool, pool.storage
    ensures pool.Valid() && pool.out == old(pool.out) && pool.freeCount == old(pool.freeCount)
    ensures sent == if old(pool.freeCount) > 0 then |messages| else 0
    ensures pool.State() == AfterMessages(pool.layout, old(pool.State()), messages[..sent])
  {
    sent := 0;
    while sent < |messages|
      invariant sent <= |messages| && pool.Valid()
      invariant pool.out == old(pool.out) && pool.freeCount == old(pool.freeCount)
      invariant sent > 0 ==> pool.freeCount > 0
      invariant pool.State() == AfterMessages(pool.layout, old(pool.State()), messages[..sent])
    {
      assert messages[..sent + 1][..sent] == messages[..sent];
      var more := SendOne(pool, messages[sent]);
      if !more {
        return;
      }
      sent := sent + 1;
    }
    CountIsNonNegative(pool.layout, pool.State());
  }

  lemma CountIsNonNegative(l: Layout, m: Machine)
    requires Inv(l, m)
    ensures m.pool.count >= 0
  {}

  /** A block is taken, the message is copied into it as far as it fits, and the block is returned. */
  function AfterMessage(l: Layout, m: Machine, message: seq<Byte>): Machine {
    var ptr := Allocate(l, m.pool).1;
    var n := if |message| < l.blockSize then |message| else l.blockSize;
    Step(l, Step(l, Step(l, m, Alloc), Write(ptr, 0, message[..n])), Free(ptr))
  }

  /** The messages one after the other. */
  ghost function AfterMessages(l: Layout, m: Machine, messages: seq<seq<Byte>>): Machine {
    if messages == [] then m
    else
      var n := |messages| - 1;
      AfterMessage(l, AfterMessages(l, m, messages[..n]), messages[n])
  }

  method SendOne(pool: MemoryPool, message: seq<Byte>) returns (ok: bool)
    requires pool.Valid()
    modifies pool, pool.storage
    ensures pool.Valid() && pool.out == old(pool.out) && pool.freeCount == old(pool.freeCount)
    ensures ok == (old(pool.freeCount) > 0)
    ensures !ok ==> pool.State() == old(pool.State())
    ensures ok ==> pool.State() == AfterMessage(pool.layout, old(pool.State()), message)
  {
    CountIsNonNegative(pool.layout, pool.State());
    var buf := new PoolPtr(pool);
    if buf.ptr == 0 {
      return false;
    }
    var n := if |message| < pool.layout.blockSize then |message| else pool.layout.blockSize;
    pool.Write(buf.ptr, 0, message[..n]);
    buf.Destroy();
    ok := true;
  }
}

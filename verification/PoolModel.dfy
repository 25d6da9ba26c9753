/**
 * The fixed-block pool as operations on one memory: the free list is threaded through
 * the same bytes that users of allocated blocks write to.
 */
module PoolModel {
  import opened PoolLayout

  /** The pool's storage, its free-list head (an address, zero for null) and its counter. */
  datatype Pool = Pool(storage: seq<Byte>, head: nat, count: int)

  function OffsetOf(l: Layout, ptr: nat): nat {
    if ptr < l.base then 0 else ptr - l.base
  }

  function ReadLink(storage: seq<Byte>, at: nat): nat {
    if at + PTR <= |storage| then Decode(storage[at..at + PTR]) else 0
  }

  function WriteBytes(storage: seq<Byte>, at: nat, bytes: seq<Byte>): (r: seq<Byte>)
    ensures |r| == |storage|
  {
    if at + |bytes| <= |storage| then storage[..at] + bytes + storage[at + |bytes|..] else storage
  }

  /** A link stored at a pointer; outside the storage it does not touch the pool. */
  function WriteLink(l: Layout, storage: seq<Byte>, ptr: nat, link: nat): seq<Byte> {
    if ptr < l.base then storage else WriteBytes(storage, ptr - l.base, Encode(link, PTR))
  }

  function Allocate(l: Layout, p: Pool): (Pool, nat) {
    if p.head == 0 then (p, 0)
    else (Pool(p.storage, ReadLink(p.storage, OffsetOf(l, p.head)), p.count - 1), p.head)
  }

  function Deallocate(l: Layout, p: Pool, ptr: nat): Pool {
    if ptr == 0 then p
    else Pool(WriteLink(l, p.storage, ptr, p.head), ptr, p.count + 1)
  }

  /** The test behind the assertion in `deallocate`. */
  predicate Owns(l: Layout, ptr: nat) {
    l.base <= ptr < l.base + Offset(l, l.numBlocks)
  }

  // ---- The free list in memory ----

  function LinkAt(l: Layout, free: seq<nat>, i: nat): nat {
    if i < |free| then Address(l, free[i]) else 0
  }

  predicate Distinct(s: seq<nat>) {
    forall i, j :: 0 <= i < j < |s| ==> s[i] != s[j]
  }

  /** The link stored in the `i`-th free block leads to the next one, or is null in the last. */
  predicate Linked(l: Layout, storage: seq<Byte>, free: seq<nat>, i: nat)
    requires i < |free|
  {
    ReadLink(storage, Offset(l, free[i])) == LinkAt(l, free, i + 1)
  }

  /** Following the links from the head visits exactly the blocks of `free`, in order, and ends. */
  ghost predicate IsFreeList(l: Layout, p: Pool, free: seq<nat>) {
    && |p.storage| == Offset(l, l.numBlocks)
    && p.count == |free| && p.head == LinkAt(l, free, 0)
    && Distinct(free)
    && (forall i :: 0 <= i < |free| ==> free[i] < l.numBlocks)
    && (forall i: nat :: i < |free| ==> Linked(l, p.storage, free, i))
  }

  lemma AddressIsPositive(l: Layout, i: nat)
    requires ValidLayout(l)
    ensures Address(l, i) > 0 && OffsetOf(l, Address(l, i)) == Offset(l, i)
  {}

  lemma AddressIsInjective(l: Layout, i: nat, j: nat)
    requires ValidLayout(l)
    ensures Address(l, i) == Address(l, j) <==> i == j
  {
    if i != j {
      BlocksAreDisjoint(l, i, j);
    }
  }

  /** A read is unaffected by a write to other bytes. */
  lemma ReadPastWrite(storage: seq<Byte>, at: nat, bytes: seq<Byte>, from: nat)
    requires from + PTR <= at || at + |bytes| <= from
    ensures ReadLink(WriteBytes(storage, at, bytes), from) == ReadLink(storage, from)
  {
    if at + |bytes| <= |storage| && from + PTR <= |storage| {
      assert WriteBytes(storage, at, bytes)[from..from + PTR] == storage[from..from + PTR];
    }
  }

  lemma ReadOwnWrite(storage: seq<Byte>, at: nat, v: nat)
    requires at + PTR <= |storage| && v < ADDRESSES
    ensures ReadLink(WriteBytes(storage, at, Encode(v, PTR)), at) == v
  {
    assert WriteBytes(storage, at, Encode(v, PTR))[at..at + PTR] == Encode(v, PTR);
    PointersFill(v);
    LinkRoundTrip(v, PTR);
  }

  /** Writing inside one block leaves every link outside it unchanged. */
  lemma WriteInsideBlock(l: Layout, p: Pool, free: seq<nat>, b: nat, at: nat, bytes: seq<Byte>)
    requires ValidLayout(l) && IsFreeList(l, p, free) && b !in free
    requires Offset(l, b) <= at && at + |bytes| <= Offset(l, b) + l.stride
    ensures forall i: nat :: i < |free| ==> Linked(l, WriteBytes(p.storage, at, bytes), free, i)
  {
    forall i: nat | i < |free|
      ensures Linked(l, WriteBytes(p.storage, at, bytes), free, i)
    {
      LinkSurvives(l, p, free, b, at, bytes, i);
    }
  }

  lemma LinkSurvives(l: Layout, p: Pool, free: seq<nat>, b: nat, at: nat, bytes: seq<Byte>, i: nat)
    requires ValidLayout(l) && IsFreeList(l, p, free) && b !in free && i < |free|
    requires Offset(l, b) <= at && at + |bytes| <= Offset(l, b) + l.stride
    ensures Linked(l, WriteBytes(p.storage, at, bytes), free, i)
  {
    assert Linked(l, p.storage, free, i);
    BlocksAreDisjoint(l, b, free[i]);
    ReadPastWrite(p.storage, at, bytes, Offset(l, free[i]));
  }

  // ---- What each operation does to the free list ----

  /** `allocate` takes the first block off the list, and fails exactly when the list is empty. */
  lemma AllocatePops(l: Layout, p: Pool, free: seq<nat>)
    requires ValidLayout(l) && IsFreeList(l, p, free)
    ensures free == [] ==> Allocate(l, p) == (p, 0)
    ensures free != [] ==>
      Allocate(l, p).1 == Address(l, free[0]) > 0 && IsFreeList(l, Allocate(l, p).0, free[1..])
  {
    if free != [] {
      AddressIsPositive(l, free[0]);
      assert Linked(l, p.storage, free, 0);
      forall i: nat | i < |free| - 1
        ensures Linked(l, p.storage, free[1..], i)
      {
        assert Linked(l, p.storage, free, i + 1);
        assert free[1..][i] == free[i + 1];
        assert LinkAt(l, free[1..], i + 1) == LinkAt(l, free, i + 2);
      }
    }
  }

  /** `deallocate` of an allocated block puts it first on the list. */
  lemma DeallocatePushes(l: Layout, p: Pool, free: seq<nat>, b: nat)
    requires ValidLayout(l) && IsFreeList(l, p, free) && b < l.numBlocks && b !in free
    ensures IsFreeList(l, Deallocate(l, p, Address(l, b)), [b] + free)
  {
    AddressIsPositive(l, b);
    LinkIsWritten(l, p, free, b);
    PushedLinks(l, WriteBytes(p.storage, Offset(l, b), Encode(p.head, PTR)), free, b);
  }

  /** Writing the link of `b` stores the old head there and keeps all other links. */
  lemma LinkIsWritten(l: Layout, p: Pool, free: seq<nat>, b: nat)
    requires ValidLayout(l) && IsFreeList(l, p, free) && b < l.numBlocks && b !in free
    ensures var m := WriteBytes(p.storage, Offset(l, b), Encode(p.head, PTR));
      && ReadLink(m, Offset(l, b)) == LinkAt(l, free, 0)
      && forall i: nat :: i < |free| ==> Linked(l, m, free, i)
  {
    BlockInStorage(l, b);
    HeadFits(l, p, free);
    ReadOwnWrite(p.storage, Offset(l, b), p.head);
    WriteInsideBlock(l, p, free, b, Offset(l, b), Encode(p.head, PTR));
  }

  lemma PushedLinks(l: Layout, m: seq<Byte>, free: seq<nat>, b: nat)
    requires ReadLink(m, Offset(l, b)) == LinkAt(l, free, 0)
    requires forall i: nat :: i < |free| ==> Linked(l, m, free, i)
    ensures forall i: nat :: i < |free| + 1 ==> Linked(l, m, [b] + free, i)
  {
    var free' := [b] + free;
    forall i: nat | i < |free'|
      ensures Linked(l, m, free', i)
    {
      assert LinkAt(l, free', i + 1) == LinkAt(l, free, i);
      if i > 0 {
        assert Linked(l, m, free, i - 1);
        assert free'[i] == free[i - 1];
      }
    }
  }

  lemma HeadFits(l: Layout, p: Pool, free: seq<nat>)
    requires ValidLayout(l) && IsFreeList(l, p, free)
    ensures p.head < ADDRESSES
  {
    if free != [] {
      BlockInStorage(l, free[0]);
    }
  }

  /** A user's write within the first `blockSize` bytes of an allocated block leaves the list as it is. */
  lemma UserWriteKeepsFreeList(l: Layout, p: Pool, free: seq<nat>, b: nat, off: nat, bytes: seq<Byte>)
    requires ValidLayout(l) && IsFreeList(l, p, free) && b !in free && off + |bytes| <= l.blockSize
    ensures IsFreeList(l, p.(storage := WriteBytes(p.storage, Offset(l, b) + off, bytes)), free)
  {
    WriteInsideBlock(l, p, free, b, Offset(l, b) + off, bytes);
  }

  /** And every byte of every other block. */
  lemma UserWriteKeepsOtherBlocks(l: Layout, p: Pool, b: nat, c: nat, at: nat, bytes: seq<Byte>, i: nat)
    requires ValidLayout(l) && b != c && i < |p.storage|
    requires Offset(l, b) <= at && at + |bytes| <= Offset(l, b) + l.blockSize
    requires Offset(l, c) <= i < Offset(l, c) + l.stride
    ensures WriteBytes(p.storage, at, bytes)[i] == p.storage[i]
  {
    BlocksAreDisjoint(l, b, c);
    ByteElsewhere(p.storage, at, bytes, i);
  }

  lemma ByteElsewhere(storage: seq<Byte>, at: nat, bytes: seq<Byte>, i: nat)
    requires i < |storage| && (i < at || at + |bytes| <= i)
    ensures WriteBytes(storage, at, bytes)[i] == storage[i]
  {}

  /** The memory determines the list. */
  lemma {:induction false} FreeListIsUnique(l: Layout, p: Pool, f: seq<nat>, g: seq<nat>)
    requires ValidLayout(l) && IsFreeList(l, p, f) && IsFreeList(l, p, g)
    ensures f == g
  {
    forall i: nat | i < |f|
      ensures f[i] == g[i]
    {
      SameBlockAt(l, p, f, g, i);
    }
  }

  lemma {:induction false} SameBlockAt(l: Layout, p: Pool, f: seq<nat>, g: seq<nat>, n: nat)
    requires ValidLayout(l) && IsFreeList(l, p, f) && IsFreeList(l, p, g) && n < |f|
    ensures f[n] == g[n]
  {
    if n > 0 {
      SameBlockAt(l, p, f, g, n - 1);
      assert Linked(l, p.storage, f, n - 1) && Linked(l, p.storage, g, n - 1);
    }
    AddressIsInjective(l, f[n], g[n]);
  }

  // ---- Inverses ----

  /** Returning a block at once undoes the allocation, byte for byte. */
  lemma DeallocateUndoesAllocate(l: Layout, p: Pool, free: seq<nat>)
    requires ValidLayout(l) && IsFreeList(l, p, free) && free != []
    ensures var (q, ptr) := Allocate(l, p); Deallocate(l, q, ptr) == p
  {
    AddressIsPositive(l, free[0]);
    BlockInStorage(l, free[0]);
    RewriteLink(p.storage, Offset(l, free[0]));
  }

  lemma RewriteLink(storage: seq<Byte>, at: nat)
    requires at + PTR <= |storage|
    ensures WriteBytes(storage, at, Encode(ReadLink(storage, at), PTR)) == storage
  {
    LinkRewrite(storage[at..at + PTR]);
    assert storage == storage[..at] + storage[at..at + PTR] + storage[at + PTR..];
  }

  /** The block returned last is handed out first, and the list is as before. */
  lemma AllocateUndoesDeallocate(l: Layout, p: Pool, free: seq<nat>, b: nat)
    requires ValidLayout(l) && IsFreeList(l, p, free) && b < l.numBlocks && b !in free
    ensures var (q, ptr) := Allocate(l, Deallocate(l, p, Address(l, b)));
      ptr == Address(l, b) && q.head == p.head && q.count == p.count && IsFreeList(l, q, free)
  {
    DeallocatePushes(l, p, free, b);
    var p' := Deallocate(l, p, Address(l, b));
    AllocatePops(l, p', [b] + free);
    assert ([b] + free)[1..] == free;
  }

  // ---- Exactly when a deallocation is right ----

  ghost predicate HasFreeList(l: Layout, p: Pool) {
    exists free :: IsFreeList(l, p, free)
  }

  /** The pointer is the start of a block that is not free. */
  ghost predicate IsAllocatedStart(l: Layout, free: seq<nat>, ptr: nat) {
    exists b: nat :: b < l.numBlocks && b !in free && ptr == Address(l, b)
  }

  /**
   * `owns` is not enough.  For any pointer but null, whether it passes `owns` or not, the
   * memory still holds a free list after `deallocate` exactly if the pointer is the start
   * of a block that is currently allocated.
   */
  lemma DeallocateIsRightExactlyForAllocatedStarts(l: Layout, p: Pool, free: seq<nat>, ptr: nat)
    requires ValidLayout(l) && IsFreeList(l, p, free) && ptr != 0
    ensures HasFreeList(l, Deallocate(l, p, ptr)) <==> IsAllocatedStart(l, free, ptr)
  {
    if IsAllocatedStart(l, free, ptr) {
      var b: nat :| b < l.numBlocks && b !in free && ptr == Address(l, b);
      DeallocatePushes(l, p, free, b);
    }
    if HasFreeList(l, Deallocate(l, p, ptr)) {
      var f :| IsFreeList(l, Deallocate(l, p, ptr), f);
      assert ptr == Address(l, f[0]);
      HeadWasNotFree(l, p, free, f);
    }
  }

  /** If a free list exists after a deallocation, its block was not free: freeing twice closes a cycle. */
  lemma HeadWasNotFree(l: Layout, p: Pool, free: seq<nat>, f: seq<nat>)
    requires ValidLayout(l) && IsFreeList(l, p, free) && f != []
    requires IsFreeList(l, Deallocate(l, p, Address(l, f[0])), f)
    ensures f[0] !in free
  {
    if k :| 0 <= k < |free| && free[k] == f[0] {
      FollowsOldList(l, p, free, f, k);
    }
  }

  lemma {:induction false} FollowsOldList(l: Layout, p: Pool, free: seq<nat>, f: seq<nat>, n: nat)
    requires ValidLayout(l) && IsFreeList(l, p, free) && f != []
    requires IsFreeList(l, Deallocate(l, p, Address(l, f[0])), f)
    requires n < |free| && f[0] in free[n..]
    ensures n + 1 < |f| && f[n + 1] == free[n]
  {
    var b := f[0];
    var p' := Deallocate(l, p, Address(l, b));
    AddressIsPositive(l, b);
    BlockInStorage(l, b);
    HeadFits(l, p, free);
    ReadOwnWrite(p.storage, Offset(l, b), p.head);
    AddressIsPositive(l, free[n]);
    if n == 0 {
      assert Linked(l, p'.storage, f, 0);
      assert LinkAt(l, f, 1) == p.head == Address(l, free[0]);
      AddressIsInjective(l, f[1], free[0]);
    } else {
      FollowsOldList(l, p, free, f, n - 1);
      assert f[n] == free[n - 1] && free[n - 1] != b;
      BlocksAreDisjoint(l, b, free[n - 1]);
      ReadPastWrite(p.storage, Offset(l, b), Encode(p.head, PTR), Offset(l, free[n - 1]));
      assert Linked(l, p'.storage, f, n) && Linked(l, p.storage, free, n - 1);
      assert LinkAt(l, f, n + 1) == LinkAt(l, free, n);
      AddressIsInjective(l, f[n + 1], free[n]);
    }
  }

  // ---- Runs ----

  /** What users of a pool do: allocate, return a pointer, write to a block they hold. */
  datatype Op = Alloc | Free(ptr: nat) | Write(ptr: nat, off: nat, bytes: seq<Byte>)

  /** A pool and the pointers handed out and not yet returned. */
  datatype Machine = Machine(pool: Pool, out: set<nat>)

  predicate Allowed(l: Layout, m: Machine, op: Op) {
    match op
    case Alloc => true
    case Free(ptr) => ptr in m.out
    case Write(ptr, off, bytes) => ptr in m.out && off + |bytes| <= l.blockSize
  }

  function Step(l: Layout, m: Machine, op: Op): Machine {
    match op
    case Alloc =>
      var (p, ptr) := Allocate(l, m.pool);
      Machine(p, if ptr == 0 then m.out else m.out + {ptr})
    case Free(ptr) =>
      Machine(Deallocate(l, m.pool, ptr), m.out - {ptr})
    case Write(ptr, off, bytes) =>
      m.(pool := m.pool.(storage := WriteBytes(m.pool.storage, OffsetOf(l, ptr) + off, bytes)))
  }

  /** What a holder writes is what its block then holds. */
  lemma WriteIsReadBack(l: Layout, m: Machine, ptr: nat, off: nat, bytes: seq<Byte>)
    requires ValidLayout(l) && Inv(l, m) && ptr in m.out && off + |bytes| <= l.blockSize
    ensures var s := Step(l, m, Write(ptr, off, bytes)).pool.storage;
      && l.base <= ptr && ptr - l.base + off + |bytes| <= |s|
      && s[ptr - l.base + off..ptr - l.base + off + |bytes|] == bytes
  {
    var b: nat :| b < l.numBlocks && ptr == Address(l, b);
    BlockInStorage(l, b);
  }

  ghost predicate Legal(l: Layout, m: Machine, ops: seq<Op>)
    decreases |ops|
  {
    ops == [] || (Allowed(l, m, ops[0]) && Legal(l, Step(l, m, ops[0]), ops[1..]))
  }

  ghost function Exec(l: Layout, m: Machine, ops: seq<Op>): Machine
    requires Legal(l, m, ops)
    decreases |ops|
  {
    if ops == [] then m else Exec(l, Step(l, m, ops[0]), ops[1..])
  }

  /** Every block is either on the free list or handed out, and nothing else is handed out. */
  ghost predicate Partition(l: Layout, free: seq<nat>, out: set<nat>) {
    && (forall i: nat :: i < l.numBlocks ==> (i in free <==> Address(l, i) !in out))
    && (forall a :: a in out ==> exists i: nat :: i < l.numBlocks && a == Address(l, i))
  }

  ghost predicate Inv(l: Layout, m: Machine) {
    && (exists free :: IsFreeList(l, m.pool, free) && Partition(l, free, m.out))
    && m.pool.count + |m.out| == l.numBlocks
  }

  /** The blocks from `i` on, in ascending order. */
  function BlocksFrom(i: nat, n: nat): seq<nat>
    requires i <= n
  {
    seq(n - i, j requires 0 <= j => i + j)
  }

  /** A fresh pool: nothing handed out, all blocks listed in ascending order. */
  ghost predicate IsFresh(l: Layout, m: Machine) {
    m.out == {} && IsFreeList(l, m.pool, BlocksFrom(0, l.numBlocks))
  }

  lemma FreshInv(l: Layout, m: Machine)
    requires ValidLayout(l) && IsFresh(l, m)
    ensures Inv(l, m)
  {
    var free := BlocksFrom(0, l.numBlocks);
    forall i: nat | i < l.numBlocks
      ensures i in free
    {
      assert free[i] == i;
    }
    assert Partition(l, free, m.out);
  }

  lemma AllocKeepsInv(l: Layout, m: Machine, free: seq<nat>)
    requires ValidLayout(l) && IsFreeList(l, m.pool, free) && Partition(l, free, m.out)
    requires m.pool.count + |m.out| == l.numBlocks
    ensures Inv(l, Step(l, m, Alloc))
    ensures var ptr := Allocate(l, m.pool).1; ptr == 0 <==> |m.out| == l.numBlocks
    ensures Allocate(l, m.pool).1 !in m.out
  {
    AllocatePops(l, m.pool, free);
    if free != [] {
      var m' := Step(l, m, Alloc);
      forall i: nat | i < l.numBlocks
        ensures i in free[1..] <==> Address(l, i) !in m'.out
      {
        AddressIsInjective(l, i, free[0]);
        assert i in free <==> i == free[0] || i in free[1..];
      }
      assert Partition(l, free[1..], m'.out);
    } else {
      forall a | a in m.out
        ensures a != 0
      {
        var i: nat :| i < l.numBlocks && a == Address(l, i);
        AddressIsPositive(l, i);
      }
    }
  }

  lemma FreeKeepsInv(l: Layout, m: Machine, free: seq<nat>, ptr: nat)
    requires ValidLayout(l) && IsFreeList(l, m.pool, free) && Partition(l, free, m.out)
    requires m.pool.count + |m.out| == l.numBlocks && ptr in m.out
    ensures Inv(l, Step(l, m, Free(ptr)))
  {
    var b: nat :| b < l.numBlocks && ptr == Address(l, b);
    DeallocatePushes(l, m.pool, free, b);
    AddressIsPositive(l, b);
    var m' := Step(l, m, Free(ptr));
    forall i: nat | i < l.numBlocks
      ensures i in [b] + free <==> Address(l, i) !in m'.out
    {
      AddressIsInjective(l, i, b);
    }
    assert Partition(l, [b] + free, m'.out);
  }

  lemma StepKeepsInv(l: Layout, m: Machine, op: Op)
    requires ValidLayout(l) && Inv(l, m) && Allowed(l, m, op)
    ensures Inv(l, Step(l, m, op))
  {
    var free :| IsFreeList(l, m.pool, free) && Partition(l, free, m.out);
    match op
    case Alloc => AllocKeepsInv(l, m, free);
    case Free(ptr) => FreeKeepsInv(l, m, free, ptr);
    case Write(ptr, off, bytes) => WriteKeepsInv(l, m, free, ptr, off, bytes);
  }

  lemma WriteKeepsInv(l: Layout, m: Machine, free: seq<nat>, ptr: nat, off: nat, bytes: seq<Byte>)
    requires ValidLayout(l) && IsFreeList(l, m.pool, free) && Partition(l, free, m.out)
    requires m.pool.count + |m.out| == l.numBlocks && ptr in m.out && off + |bytes| <= l.blockSize
    ensures Inv(l, Step(l, m, Write(ptr, off, bytes)))
  {
    var b: nat :| b < l.numBlocks && ptr == Address(l, b);
    AddressIsPositive(l, b);
    UserWriteKeepsFreeList(l, m.pool, free, b, off, bytes);
  }

  lemma {:induction false} RunKeepsInv(l: Layout, m: Machine, ops: seq<Op>)
    requires ValidLayout(l) && Inv(l, m) && Legal(l, m, ops)
    ensures Inv(l, Exec(l, m, ops))
    decreases |ops|
  {
    if ops != [] {
      StepKeepsInv(l, m, ops[0]);
      RunKeepsInv(l, Step(l, m, ops[0]), ops[1..]);
    }
  }

  /**
   * After any run of allocations, returns and user writes the memory holds a free list
   * of distinct blocks that, with the pointers handed out, partitions the pool; its
   * length is the counter; and an allocation fails exactly when all blocks are out, and
   * otherwise hands out a pointer that nobody holds.
   */
  lemma PoolIsPartitioned(l: Layout, m: Machine, ops: seq<Op>)
    requires ValidLayout(l) && IsFresh(l, m) && Legal(l, m, ops)
    ensures var s := Exec(l, m, ops);
      Inv(l, s) && AllocationAnswers(l, s)
  {
    FreshInv(l, m);
    RunKeepsInv(l, m, ops);
    InvAnswers(l, Exec(l, m, ops));
  }

  ghost predicate AllocationAnswers(l: Layout, m: Machine) {
    var ptr := Allocate(l, m.pool).1;
    (ptr == 0 <==> |m.out| == l.numBlocks) && ptr !in m.out
  }

  lemma InvAnswers(l: Layout, m: Machine)
    requires ValidLayout(l) && Inv(l, m)
    ensures AllocationAnswers(l, m)
  {
    var free :| IsFreeList(l, m.pool, free) && Partition(l, free, m.out);
    AllocKeepsInv(l, m, free);
  }

  /** A fresh pool hands out its blocks in ascending address order. */
  lemma FreshPoolAscends(l: Layout, m: Machine, k: nat)
    requires ValidLayout(l) && IsFresh(l, m) && k < l.numBlocks
    ensures Allocate(l, AfterAllocs(l, m.pool, k)).1 == Address(l, k)
  {
    ListAfterAllocs(l, m.pool, k);
    AllocateAscends(l, AfterAllocs(l, m.pool, k), k);
  }

  /** The pool after `k` allocations in a row. */
  function AfterAllocs(l: Layout, p: Pool, k: nat): Pool {
    if k == 0 then p else Allocate(l, AfterAllocs(l, p, k - 1)).0
  }

  lemma {:induction false} ListAfterAllocs(l: Layout, p: Pool, k: nat)
    requires ValidLayout(l) && k <= l.numBlocks && IsFreeList(l, p, BlocksFrom(0, l.numBlocks))
    ensures IsFreeList(l, AfterAllocs(l, p, k), BlocksFrom(k, l.numBlocks))
  {
    if k > 0 {
      ListAfterAllocs(l, p, k - 1);
      AllocateAscends(l, AfterAllocs(l, p, k - 1), k - 1);
    }
  }

  lemma AllocateAscends(l: Layout, p: Pool, i: nat)
    requires ValidLayout(l) && i < l.numBlocks && IsFreeList(l, p, BlocksFrom(i, l.numBlocks))
    ensures Allocate(l, p).1 == Address(l, i)
    ensures IsFreeList(l, Allocate(l, p).0, BlocksFrom(i + 1, l.numBlocks))
  {
    var free := BlocksFrom(i, l.numBlocks);
    AllocatePops(l, p, free);
    assert free[0] == i;
    assert free[1..] == BlocksFrom(i + 1, l.numBlocks);
  }
}

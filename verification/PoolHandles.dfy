/**
 * Ownership of pool blocks by move-only handles, over any number of pools and handles.
 */
module PoolHandles {
  import opened PoolLayout
  import opened PoolModel

  /** A handle: the pool it was bound to when constructed, and its pointer. */
  datatype Handle = Handle(pool: nat, ptr: nat)

  datatype World = World(
    pools: seq<Machine>,
    handles: map<nat, Handle>,
    loose: set<nat>)  // pointers given up by `release` and held by the caller

  datatype Action =
    | Construct(h: nat, pool: nat)
    | MoveConstruct(h: nat, from: nat)
    | MoveAssign(to: nat, from: nat)
    | Release(h: nat)
    | Destroy(h: nat)
    | GiveBack(ptr: nat, pool: nat)  // a releasing caller deallocates

  predicate Possible(w: World, a: Action) {
    match a
    case Construct(h, k) => h !in w.handles && k < |w.pools|
    case MoveConstruct(h, from) => h !in w.handles && from in w.handles
    case MoveAssign(to, from) => to in w.handles && from in w.handles
    case Release(h) => h in w.handles
    case Destroy(h) => h in w.handles
    case GiveBack(ptr, k) => ptr in w.loose && k < |w.pools| && ptr in w.pools[k].out
  }

  /** `deallocate` on the pool a handle is bound to; nothing for a null pointer. */
  function Dealloc(ls: seq<Layout>, pools: seq<Machine>, k: nat, ptr: nat): seq<Machine>
    requires |ls| == |pools|
  {
    if ptr != 0 && k < |pools| then pools[k := Step(ls[k], pools[k], Free(ptr))] else pools
  }

  function Act(ls: seq<Layout>, w: World, a: Action): World
    requires |ls| == |w.pools| && Possible(w, a)
  {
    match a
    case Construct(h, k) =>
      var ptr := Allocate(ls[k], w.pools[k].pool).1;
      w.(pools := w.pools[k := Step(ls[k], w.pools[k], Alloc)], handles := w.handles[h := Handle(k, ptr)])
    case MoveConstruct(h, from) =>
      w.(handles := w.handles[from := w.handles[from].(ptr := 0)][h := w.handles[from]])
    case MoveAssign(to, from) =>
      if to == from then w
      else
        var t, f := w.handles[to], w.handles[from];
        w.(pools := Dealloc(ls, w.pools, t.pool, t.ptr),
           handles := w.handles[to := t.(ptr := f.ptr)][from := f.(ptr := 0)])
    case Release(h) =>
      var x := w.handles[h];
      w.(handles := w.handles[h := x.(ptr := 0)], loose := if x.ptr == 0 then w.loose else w.loose + {x.ptr})
    case Destroy(h) =>
      var x := w.handles[h];
      w.(pools := Dealloc(ls, w.pools, x.pool, x.ptr), handles := w.handles - {h})
    case GiveBack(ptr, k) =>
      w.(pools := Dealloc(ls, w.pools, k, ptr), loose := w.loose - {ptr})
  }

  // ---- Ownership ----

  ghost predicate Setting(ls: seq<Layout>) {
    && (forall k :: 0 <= k < |ls| ==> ValidLayout(ls[k]))
    && (forall j, k, a :: 0 <= j < |ls| && 0 <= k < |ls| && j != k ==> !(Owns(ls[j], a) && Owns(ls[k], a)))
  }

  predicate Held(w: World, k: nat, ptr: nat) {
    k < |w.pools| && ptr in w.pools[k].out
  }

  ghost predicate PoolsAreValid(ls: seq<Layout>, w: World) {
    |ls| == |w.pools| && forall k :: 0 <= k < |ls| ==> Inv(ls[k], w.pools[k])
  }

  /** A handle's pointer is null or held from the handle's own pool. */
  ghost predicate HandlesHold(w: World) {
    forall h :: h in w.handles ==> w.handles[h].ptr == 0 || Held(w, w.handles[h].pool, w.handles[h].ptr)
  }

  /** No two owners hold the same block. */
  ghost predicate OwnersDiffer(w: World) {
    && (forall g, h :: g in w.handles && h in w.handles && g != h && w.handles[g].ptr == w.handles[h].ptr
          ==> w.handles[g].ptr == 0)
    && (forall h :: h in w.handles ==> w.handles[h].ptr !in w.loose)
  }

  /** Every block handed out has an owner: a handle or a releasing caller. */
  ghost predicate AllOwned(w: World) {
    forall k, a :: 0 <= k < |w.pools| && a in w.pools[k].out ==> HasOwner(w, a)
  }

  ghost predicate HasOwner(w: World, a: nat) {
    a in w.loose || exists h :: h in w.handles && w.handles[h].ptr == a
  }

  ghost predicate LooseHeld(w: World) {
    forall a :: a in w.loose ==> exists k: nat :: Held(w, k, a)
  }

  ghost predicate Owned(ls: seq<Layout>, w: World) {
    PoolsAreValid(ls, w) && HandlesHold(w) && OwnersDiffer(w) && AllOwned(w) && LooseHeld(w)
  }

  /** Blocks handed out by different pools are different, and none is null. */
  lemma HeldOnce(ls: seq<Layout>, w: World, j: nat, k: nat, a: nat)
    requires Setting(ls) && PoolsAreValid(ls, w) && Held(w, j, a) && Held(w, k, a)
    ensures j == k && a != 0 && Owns(ls[j], a)
  {
    HeldIsOwned(ls[j], w.pools[j], a);
    HeldIsOwned(ls[k], w.pools[k], a);
  }

  lemma HeldIsOwned(l: Layout, m: Machine, a: nat)
    requires ValidLayout(l) && Inv(l, m) && a in m.out
    ensures Owns(l, a) && a != 0
  {
    var i: nat :| i < l.numBlocks && a == Address(l, i);
    BlockInStorage(l, i);
  }

  /** After a construction exactly the new pointer, if any, is held besides. */
  lemma ConstructHolds(ls: seq<Layout>, w: World, h: nat, k: nat)
    requires Setting(ls) && PoolsAreValid(ls, w) && Possible(w, Construct(h, k))
    ensures var w' := Act(ls, w, Construct(h, k)); var ptr := w'.handles[h].ptr;
      && PoolsAreValid(ls, w') && !Held(w, k, ptr)
      && forall j: nat, a :: Held(w', j, a) <==> Held(w, j, a) || (j == k && a == ptr && ptr != 0)
  {
    StepKeepsInv(ls[k], w.pools[k], Alloc);
    InvAnswers(ls[k], w.pools[k]);
  }

  lemma ConstructKeepsOwned(ls: seq<Layout>, w: World, h: nat, k: nat)
    requires Setting(ls) && Owned(ls, w) && Possible(w, Construct(h, k))
    ensures Owned(ls, Act(ls, w, Construct(h, k)))
  {
    var w' := Act(ls, w, Construct(h, k));
    var ptr := w'.handles[h].ptr;
    ConstructHolds(ls, w, h, k);
    if ptr != 0 {
      NewPointerIsNew(ls, w, w', k, ptr);
    } else {
      LooseIsNotNull(ls, w);
    }
    LooseStaysHeld(w, w');
    NewHandleOwns(w, w', h, k, ptr);
  }

  /** A new handle owns the new pointer, and every other owner stays. */
  lemma NewHandleOwns(w: World, w': World, h: nat, k: nat, ptr: nat)
    requires AllOwned(w) && h !in w.handles && w'.handles == w.handles[h := Handle(k, ptr)] && w'.loose == w.loose
    requires forall j: nat, a :: Held(w', j, a) <==> Held(w, j, a) || (j == k && a == ptr && ptr != 0)
    ensures AllOwned(w')
  {
    forall j, a | 0 <= j < |w'.pools| && a in w'.pools[j].out
      ensures HasOwner(w', a)
    {
      assert Held(w', j, a);
      if a == ptr {
        assert w'.handles[h].ptr == a;
      } else {
        OwnerKept(w, w', a);
      }
    }
  }

  lemma LooseStaysHeld(w: World, w': World)
    requires LooseHeld(w) && w'.loose <= w.loose
    requires forall j: nat, a :: Held(w, j, a) && a in w'.loose ==> Held(w', j, a)
    ensures LooseHeld(w')
  {
    forall a | a in w'.loose
      ensures exists j: nat :: Held(w', j, a)
    {
      var j: nat :| Held(w, j, a);
      assert Held(w', j, a);
    }
  }

  /** A pointer just allocated has no owner yet. */
  lemma NewPointerIsNew(ls: seq<Layout>, w: World, w': World, k: nat, ptr: nat)
    requires Setting(ls) && Owned(ls, w) && PoolsAreValid(ls, w') && Held(w', k, ptr) && !Held(w, k, ptr)
    requires forall j: nat, a :: Held(w, j, a) ==> Held(w', j, a)
    ensures ptr !in w.loose && forall h :: h in w.handles ==> w.handles[h].ptr != ptr
  {
    if ptr in w.loose {
      var j: nat :| Held(w, j, ptr);
      HeldOnce(ls, w', j, k, ptr);
    }
    forall h | h in w.handles
      ensures w.handles[h].ptr != ptr
    {
      if w.handles[h].ptr == ptr {
        HeldOnce(ls, w', k, k, ptr);
        HeldOnce(ls, w', w.handles[h].pool, k, ptr);
      }
    }
  }

  lemma OwnerKept(w: World, w': World, a: nat)
    requires HasOwner(w, a) && w.loose <= w'.loose
    requires forall h :: h in w.handles && w.handles[h].ptr == a ==> h in w'.handles && w'.handles[h].ptr == a
    ensures HasOwner(w', a)
  {
    if a !in w.loose {
      var h :| h in w.handles && w.handles[h].ptr == a;
      assert w'.handles[h].ptr == a;
    }
  }

  // The other actions are made of four smaller ones: return a handle's block, move a
  // pointer between two handles, add and remove a null handle.

  function DropBlock(ls: seq<Layout>, w: World, h: nat): World
    requires |ls| == |w.pools| && h in w.handles
  {
    var x := w.handles[h];
    w.(pools := Dealloc(ls, w.pools, x.pool, x.ptr), handles := w.handles[h := x.(ptr := 0)])
  }

  function Transfer(w: World, to: nat, from: nat): World
    requires to in w.handles && from in w.handles
  {
    w.(handles := w.handles[to := w.handles[to].(ptr := w.handles[from].ptr)][from := w.handles[from].(ptr := 0)])
  }

  function AddNull(w: World, h: nat, pool: nat): World {
    w.(handles := w.handles[h := Handle(pool, 0)])
  }

  /** After a deallocation exactly the returned pointer is no longer held. */
  lemma DeallocHolds(ls: seq<Layout>, w: World, w': World, k: nat, ptr: nat)
    requires Setting(ls) && PoolsAreValid(ls, w) && Held(w, k, ptr)
    requires w'.pools == Dealloc(ls, w.pools, k, ptr)
    ensures PoolsAreValid(ls, w')
    ensures forall j: nat, a :: Held(w', j, a) <==> Held(w, j, a) && a != ptr
  {
    StepKeepsInv(ls[k], w.pools[k], Free(ptr));
    HeldOnce(ls, w, k, k, ptr);
    forall j: nat, a
      ensures Held(w', j, a) <==> Held(w, j, a) && a != ptr
    {
      if Held(w, j, ptr) {
        HeldOnce(ls, w, j, k, ptr);
      }
    }
  }

  lemma DropBlockKeepsOwned(ls: seq<Layout>, w: World, h: nat)
    requires Setting(ls) && Owned(ls, w) && h in w.handles
    ensures Owned(ls, DropBlock(ls, w, h))
  {
    var w', x := DropBlock(ls, w, h), w.handles[h];
    if x.ptr != 0 {
      DeallocHolds(ls, w, w', x.pool, x.ptr);
      LooseIsNotNull(ls, w);
      LooseStaysHeld(w, w');
      OldOwnersStay(w, w', h);
    } else {
      assert w' == w;
    }
  }

  /** A handle whose block has gone back becomes null, and every other owner stays. */
  lemma OldOwnersStay(w: World, w': World, h: nat)
    requires AllOwned(w) && h in w.handles && w'.loose == w.loose
    requires w'.handles == w.handles[h := w.handles[h].(ptr := 0)]
    requires forall j: nat, a :: Held(w', j, a) <==> Held(w, j, a) && a != w.handles[h].ptr
    ensures AllOwned(w')
  {
    forall j, a | 0 <= j < |w'.pools| && a in w'.pools[j].out
      ensures HasOwner(w', a)
    {
      assert Held(w', j, a) && Held(w, j, a);
      OwnerKept(w, w', a);
    }
  }

  /** Moving a pointer to a null handle keeps ownership exactly if it is null or the pools agree. */
  lemma TransferIsRightWithinOnePool(ls: seq<Layout>, w: World, to: nat, from: nat)
    requires Setting(ls) && Owned(ls, w) && to in w.handles && from in w.handles && to != from
    requires w.handles[to].ptr == 0
    ensures Owned(ls, Transfer(w, to, from)) <==>
      w.handles[from].ptr == 0 || w.handles[to].pool == w.handles[from].pool
  {
    var w', t, f := Transfer(w, to, from), w.handles[to], w.handles[from];
    assert w'.pools == w.pools && w'.loose == w.loose;
    assert forall j: nat, a :: Held(w', j, a) <==> Held(w, j, a);
    if f.ptr == 0 || t.pool == f.pool {
      TransferKeepsOwners(w, to, from);
    } else {
      if Held(w, t.pool, f.ptr) {
        HeldOnce(ls, w, t.pool, f.pool, f.ptr);
      }
      assert !Held(w', w'.handles[to].pool, w'.handles[to].ptr);
    }
  }

  lemma TransferKeepsOwners(w: World, to: nat, from: nat)
    requires AllOwned(w) && to in w.handles && from in w.handles && to != from && w.handles[to].ptr == 0
    requires forall k, a :: 0 <= k < |w.pools| && a in w.pools[k].out ==> a != 0
    ensures AllOwned(Transfer(w, to, from))
  {
    var w' := Transfer(w, to, from);
    forall k, a | 0 <= k < |w'.pools| && a in w'.pools[k].out
      ensures HasOwner(w', a)
    {
      assert HasOwner(w, a);
      if a !in w.loose {
        var h :| h in w.handles && w.handles[h].ptr == a;
        var g := if h == from then to else h;
        assert g in w'.handles && w'.handles[g].ptr == a;
      }
    }
  }

  lemma ReleaseKeepsOwned(ls: seq<Layout>, w: World, h: nat)
    requires Setting(ls) && Owned(ls, w) && h in w.handles
    ensures Owned(ls, Act(ls, w, Release(h)))
  {
    var w', x := Act(ls, w, Release(h)), w.handles[h];
    assert forall j: nat, a :: Held(w', j, a) <==> Held(w, j, a);
    forall a | a in w'.loose
      ensures exists j: nat :: Held(w', j, a)
    {
      if a in w.loose {
        var j: nat :| Held(w, j, a);
      } else {
        assert Held(w', x.pool, a);
      }
    }
    forall j, a | 0 <= j < |w'.pools| && a in w'.pools[j].out
      ensures HasOwner(w', a)
    {
      assert HasOwner(w, a);
      if a !in w'.loose {
        OwnerKept(w, w', a);
      }
    }
  }

  lemma GiveBackKeepsOwned(ls: seq<Layout>, w: World, ptr: nat, k: nat)
    requires Setting(ls) && Owned(ls, w) && Possible(w, GiveBack(ptr, k))
    ensures Owned(ls, Act(ls, w, GiveBack(ptr, k)))
  {
    var w' := Act(ls, w, GiveBack(ptr, k));
    HeldOnce(ls, w, k, k, ptr);
    DeallocHolds(ls, w, w', k, ptr);
    LooseStaysHeld(w, w');
    forall j, a | 0 <= j < |w'.pools| && a in w'.pools[j].out
      ensures HasOwner(w', a)
    {
      assert Held(w', j, a) && Held(w, j, a);
      assert HasOwner(w, a);
    }
  }

  lemma AddNullKeepsOwned(ls: seq<Layout>, w: World, h: nat, pool: nat)
    requires Setting(ls) && Owned(ls, w) && h !in w.handles
    ensures Owned(ls, AddNull(w, h, pool))
  {
    var w' := AddNull(w, h, pool);
    assert forall j: nat, a :: Held(w', j, a) <==> Held(w, j, a);
    LooseIsNotNull(ls, w);
    forall j, a | 0 <= j < |w'.pools| && a in w'.pools[j].out
      ensures HasOwner(w', a)
    {
      OwnerKept(w, w', a);
    }
  }

  lemma LooseIsNotNull(ls: seq<Layout>, w: World)
    requires Setting(ls) && PoolsAreValid(ls, w) && LooseHeld(w)
    ensures 0 !in w.loose
  {
    forall a | a in w.loose
      ensures a != 0
    {
      var j: nat :| Held(w, j, a);
      HeldOnce(ls, w, j, j, a);
    }
  }

  lemma RemoveNullKeepsOwned(ls: seq<Layout>, w: World, h: nat)
    requires Setting(ls) && Owned(ls, w) && h in w.handles && w.handles[h].ptr == 0
    ensures Owned(ls, w.(handles := w.handles - {h}))
  {
    var w' := w.(handles := w.handles - {h});
    assert forall j: nat, a :: Held(w', j, a) <==> Held(w, j, a);
    forall j, a | 0 <= j < |w'.pools| && a in w'.pools[j].out
      ensures HasOwner(w', a)
    {
      HeldOnce(ls, w, j, j, a);
      OwnerKept(w, w', a);
    }
  }

  /** A move-assignment that does not carry a block to a handle of another pool. */
  predicate WithinOnePool(w: World, to: nat, from: nat)
    requires to in w.handles && from in w.handles
  {
    to == from || w.handles[from].ptr == 0 || w.handles[to].pool == w.handles[from].pool
  }

  /**
   * Move-assignment keeps ownership exactly when it stays within one pool: the handle
   * does not rebind its pool, so a block from another pool would go back to the wrong one.
   */
  lemma MoveAssignIsRightWithinOnePool(ls: seq<Layout>, w: World, to: nat, from: nat)
    requires Setting(ls) && Owned(ls, w) && Possible(w, MoveAssign(to, from))
    ensures Owned(ls, Act(ls, w, MoveAssign(to, from))) <==> WithinOnePool(w, to, from)
  {
    if to != from {
      var v := DropBlock(ls, w, to);
      DropBlockKeepsOwned(ls, w, to);
      TransferIsRightWithinOnePool(ls, v, to, from);
      assert Act(ls, w, MoveAssign(to, from)).handles == Transfer(v, to, from).handles;
    }
  }

  lemma MoveConstructKeepsOwned(ls: seq<Layout>, w: World, h: nat, from: nat)
    requires Setting(ls) && Owned(ls, w) && Possible(w, MoveConstruct(h, from))
    ensures Owned(ls, Act(ls, w, MoveConstruct(h, from)))
  {
    var v := AddNull(w, h, w.handles[from].pool);
    AddNullKeepsOwned(ls, w, h, w.handles[from].pool);
    TransferIsRightWithinOnePool(ls, v, h, from);
    assert Act(ls, w, MoveConstruct(h, from)).handles == Transfer(v, h, from).handles;
  }

  lemma DestroyKeepsOwned(ls: seq<Layout>, w: World, h: nat)
    requires Setting(ls) && Owned(ls, w) && Possible(w, Destroy(h))
    ensures Owned(ls, Act(ls, w, Destroy(h)))
  {
    var v := DropBlock(ls, w, h);
    DropBlockKeepsOwned(ls, w, h);
    RemoveNullKeepsOwned(ls, v, h);
    assert Act(ls, w, Destroy(h)).handles == v.handles - {h};
  }

  lemma ActionKeepsOwned(ls: seq<Layout>, w: World, a: Action)
    requires Setting(ls) && Owned(ls, w) && Possible(w, a)
    requires a.MoveAssign? ==> WithinOnePool(w, a.to, a.from)
    ensures Owned(ls, Act(ls, w, a))
  {
    match a
    case Construct(h, k) => ConstructKeepsOwned(ls, w, h, k);
    case MoveConstruct(h, from) => MoveConstructKeepsOwned(ls, w, h, from);
    case MoveAssign(to, from) => MoveAssignIsRightWithinOnePool(ls, w, to, from);
    case Release(h) => ReleaseKeepsOwned(ls, w, h);
    case Destroy(h) => DestroyKeepsOwned(ls, w, h);
    case GiveBack(ptr, k) => GiveBackKeepsOwned(ls, w, ptr, k);
  }

  // ---- Runs over one pool ----

  ghost predicate LegalRun(ls: seq<Layout>, w: World, run: seq<Action>)
    requires |ls| == |w.pools|
    decreases |run|
  {
    run == [] || (Possible(w, run[0]) && LegalRun(ls, Act(ls, w, run[0]), run[1..]))
  }

  ghost function ExecRun(ls: seq<Layout>, w: World, run: seq<Action>): World
    requires |ls| == |w.pools| && LegalRun(ls, w, run)
    decreases |run|
  {
    if run == [] then w else ExecRun(ls, Act(ls, w, run[0]), run[1..])
  }

  /** Every handle is bound to the one pool. */
  ghost predicate Bound(w: World) {
    |w.pools| == 1 && forall h :: h in w.handles ==> w.handles[h].pool == 0
  }

  /** A fresh pool without handles is where runs start. */
  lemma FreshWorldIsOwned(l: Layout, m: Machine)
    requires ValidLayout(l) && IsFresh(l, m)
    ensures var w := World([m], map[], {}); Setting([l]) && Owned([l], w) && Bound(w)
  {
    FreshInv(l, m);
  }

  /**
   * Over one pool, every sequence of constructions, moves, releases, destructions and
   * returns leaves each block that is out with exactly one owner, and the free blocks
   * and the blocks out add up to the capacity.
   */
  lemma {:induction false} OneOwnerInEveryRun(l: Layout, w: World, run: seq<Action>)
    requires Setting([l]) && Owned([l], w) && Bound(w) && LegalRun([l], w, run)
    ensures var v := ExecRun([l], w, run);
      Owned([l], v) && Bound(v) && v.pools[0].pool.count + |v.pools[0].out| == l.numBlocks
    decreases |run|
  {
    assert Inv([l][0], w.pools[0]);
    if run != [] {
      ActionKeepsOwned([l], w, run[0]);
      OneOwnerInEveryRun(l, Act([l], w, run[0]), run[1..]);
    }
  }
}

/**
 * The handle objects perform the actions of the ownership model.
 */
module HandleObjects {
  import opened PoolLayout
  import opened PoolModel
  import opened PoolHandles
  import opened MemoryPool

  /** What the objects over one pool amount to. */
  ghost function View(pool: MemoryPool, handles: map<nat, PoolPtr>, loose: set<nat>): World
    reads pool, pool.storage, handles.Values
  {
    World([pool.State()], map h | h in handles :: Handle(0, handles[h].ptr), loose)
  }

  /** Different handles are different objects, all bound to the pool. */
  ghost predicate Bindings(pool: MemoryPool, handles: map<nat, PoolPtr>) {
    && (forall h :: h in handles ==> handles[h].pool == pool)
    && (forall g, h :: g in handles && h in handles && handles[g] == handles[h] ==> g == h)
  }

  ghost predicate Ready(pool: MemoryPool, handles: map<nat, PoolPtr>, loose: set<nat>)
    reads pool, pool.storage, handles.Values
  {
    && pool.Valid() && Bindings(pool, handles)
    && Owned([pool.layout], View(pool, handles, loose))
  }

  method ConstructObject(pool: MemoryPool, handles: map<nat, PoolPtr>, loose: set<nat>, h: nat)
    returns (handles': map<nat, PoolPtr>)
    requires Ready(pool, handles, loose) && h !in handles
    modifies pool
    ensures pool.Valid() && Bindings(pool, handles') && fresh(handles'.Values - handles.Values)
    ensures View(pool, handles', loose) == Act([pool.layout], old(View(pool, handles, loose)), Construct(h, 0))
  {
    InvAnswers(pool.layout, pool.State());
    var x := new PoolPtr(pool);
    handles' := handles[h := x];
  }

  method MoveObject(pool: MemoryPool, handles: map<nat, PoolPtr>, loose: set<nat>, h: nat, from: nat)
    returns (handles': map<nat, PoolPtr>)
    requires Ready(pool, handles, loose) && h !in handles && from in handles
    modifies handles[from]
    ensures pool.Valid() && Bindings(pool, handles') && fresh(handles'.Values - handles.Values)
    ensures View(pool, handles', loose) == Act([pool.layout], old(View(pool, handles, loose)), MoveConstruct(h, from))
  {
    HandleIsValid(pool, handles, loose, from);
    var x := new PoolPtr.Move(handles[from]);
    handles' := handles[h := x];
  }

  method AssignObject(pool: MemoryPool, handles: map<nat, PoolPtr>, loose: set<nat>, to: nat, from: nat)
    requires Ready(pool, handles, loose) && to in handles && from in handles
    modifies handles[to], handles[from], pool, pool.storage
    ensures pool.Valid()
    ensures View(pool, handles, loose) == Act([pool.layout], old(View(pool, handles, loose)), MoveAssign(to, from))
  {
    HandleIsValid(pool, handles, loose, to);
    handles[to].Assign(handles[from]);
  }

  method ReleaseObject(pool: MemoryPool, handles: map<nat, PoolPtr>, loose: set<nat>, h: nat)
    returns (loose': set<nat>)
    requires Ready(pool, handles, loose) && h in handles
    modifies handles[h]
    ensures pool.Valid()
    ensures View(pool, handles, loose') == Act([pool.layout], old(View(pool, handles, loose)), Release(h))
  {
    HandleIsValid(pool, handles, loose, h);
    var p := handles[h].Release();
    loose' := if p == 0 then loose else loose + {p};
  }

  method DestroyObject(pool: MemoryPool, handles: map<nat, PoolPtr>, loose: set<nat>, h: nat)
    returns (handles': map<nat, PoolPtr>)
    requires Ready(pool, handles, loose) && h in handles
    modifies pool, pool.storage
    ensures pool.Valid() && Bindings(pool, handles') && handles'.Values <= handles.Values
    ensures View(pool, handles', loose) == Act([pool.layout], old(View(pool, handles, loose)), Destroy(h))
  {
    HandleIsValid(pool, handles, loose, h);
    handles[h].Destroy();
    handles' := handles - {h};
  }

  lemma HandleIsValid(pool: MemoryPool, handles: map<nat, PoolPtr>, loose: set<nat>, h: nat)
    requires Ready(pool, handles, loose) && h in handles
    ensures handles[h].Valid() && handles[h].pool == pool
  {
    var w := View(pool, handles, loose);
    assert w.handles[h].ptr == 0 || Held(w, w.handles[h].pool, w.handles[h].ptr);
  }

  method ReturnLoose(pool: MemoryPool, handles: map<nat, PoolPtr>, loose: set<nat>, ptr: nat)
    returns (loose': set<nat>)
    requires Ready(pool, handles, loose) && ptr in loose && ptr in pool.out
    modifies pool, pool.storage
    ensures pool.Valid()
    ensures View(pool, handles, loose') == Act([pool.layout], old(View(pool, handles, loose)), GiveBack(ptr, 0))
  {
    GivenBackIsNotNull(pool, ptr);
    pool.Deallocate(ptr);
    loose' := loose - {ptr};
  }

  method Dispatch(pool: MemoryPool, handles: map<nat, PoolPtr>, loose: set<nat>, a: Action)
    returns (handles': map<nat, PoolPtr>, loose': set<nat>)
    requires Ready(pool, handles, loose) && Possible(View(pool, handles, loose), a)
    modifies pool, pool.storage, handles.Values
    ensures pool.Valid() && Bindings(pool, handles') && fresh(handles'.Values - handles.Values)
    ensures View(pool, handles', loose') == Act([pool.layout], old(View(pool, handles, loose)), a)
  {
    handles', loose' := handles, loose;
    match a
    case Construct(h, _) => handles' := ConstructObject(pool, handles, loose, h);
    case MoveConstruct(h, from) => handles' := MoveObject(pool, handles, loose, h, from);
    case MoveAssign(to, from) => AssignObject(pool, handles, loose, to, from);
    case Release(h) => loose' := ReleaseObject(pool, handles, loose, h);
    case Destroy(h) => handles' := DestroyObject(pool, handles, loose, h);
    case GiveBack(ptr, _) => loose' := ReturnLoose(pool, handles, loose, ptr);
  }

  /** Each action, performed by the objects, is the action of the model, and keeps ownership. */
  method Perform(pool: MemoryPool, handles: map<nat, PoolPtr>, loose: set<nat>, a: Action)
    returns (handles': map<nat, PoolPtr>, loose': set<nat>)
    requires Ready(pool, handles, loose) && Setting([pool.layout]) && Possible(View(pool, handles, loose), a)
    modifies pool, pool.storage, handles.Values
    ensures Ready(pool, handles', loose') && fresh(handles'.Values - handles.Values)
    ensures View(pool, handles', loose') == Act([pool.layout], old(View(pool, handles, loose)), a)
  {
    ActionKeepsOwned([pool.layout], View(pool, handles, loose), a);
    handles', loose' := Dispatch(pool, handles, loose, a);
  }

  lemma GivenBackIsNotNull(pool: MemoryPool, ptr: nat)
    requires pool.Valid() && ptr in pool.out
    ensures ptr != 0
  {
    HeldIsOwned(pool.layout, pool.State(), ptr);
  }

  /**
   * Any sequence of actions, performed by the objects, is the run of the model, so every
   * block out has one owner at the end and the free blocks and the blocks out add up.
   */
  method PerformAll(pool: MemoryPool, handles: map<nat, PoolPtr>, loose: set<nat>, run: seq<Action>)
    returns (handles': map<nat, PoolPtr>, loose': set<nat>)
    requires Ready(pool, handles, loose) && Setting([pool.layout])
    requires LegalRun([pool.layout], View(pool, handles, loose), run)
    modifies pool, pool.storage, handles.Values
    ensures Ready(pool, handles', loose') && fresh(handles'.Values - handles.Values)
    ensures View(pool, handles', loose') == ExecRun([pool.layout], old(View(pool, handles, loose)), run)
    ensures pool.freeCount + |pool.out| == pool.layout.numBlocks
    decreases |run|
  {
    OneOwnerInEveryRun(pool.layout, View(pool, handles, loose), run);
    if run == [] {
      handles', loose' := handles, loose;
    } else {
      handles', loose' := Perform(pool, handles, loose, run[0]);
      handles', loose' := PerformAll(pool, handles', loose', run[1..]);
    }
  }
}

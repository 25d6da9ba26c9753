/**
 * The single-producer single-consumer ring buffer as a two-thread step system.
 *
 * Every atomic load, slot access and atomic store of `try_push` and `try_pop` is a
 * step of its own.  An atomic variable is its modification order: a sequence of
 * stores.  A thread that loads the other thread's index may obtain any store that is
 * not older than the last one it obtained (read-read coherence, section 4.7.1
 * [intro.races] of ISO C++17); it need not see the newest one.
 *
 * Data races are detected with clocks.  Each thread counts its own slot accesses, a
 * release store publishes the count, and an acquire load learns the published count.
 * A slot access is ordered after an earlier access by the other thread only if that
 * access has been learnt.
 */
module SpscModel {
  import opened Bits

  /** A slot is blank when default constructed or moved from. */
  datatype Cell<T> = Blank | Full(value: T)

  /** A slot together with the clocks of the last access by each thread. */
  datatype Slot<T> = Slot(cell: Cell<T>, lastWrite: nat, lastTake: nat)

  /** A store in a modification order, with the clock it publishes. */
  datatype Store = Store(value: nat, clock: nat)

  datatype Producer<T> =
    | PIdle
    | PLoadedTail(tail: nat, item: T)
    | PReady(tail: nat, next: nat, item: T)
    | PWritten(next: nat, item: T)

  datatype Consumer<T> =
    | CIdle
    | CLoadedHead(head: nat)
    | CReady(head: nat)
    | CTaken(head: nat, taken: Cell<T>)

  datatype State<T> = State(
    cap: nat,
    slots: seq<Slot<T>>,
    tails: seq<Store>,     // modification order of tail_
    heads: seq<Store>,     // modification order of head_
    producer: Producer<T>,
    consumer: Consumer<T>,
    seenHead: nat,         // position in heads last obtained by the producer
    seenTail: nat,         // position in tails last obtained by the consumer
    writes: nat,           // slot accesses by the producer
    takes: nat,            // slot accesses by the consumer
    knownTakes: nat,       // clock of the consumer learnt by the producer
    knownWrites: nat,      // clock of the producer learnt by the consumer
    accepted: seq<T>,      // items whose push has succeeded
    popped: seq<Cell<T>>)  // items whose pop has succeeded
  {
    function Pushes(): nat requires |tails| > 0 { |tails| - 1 }
    function Pops(): nat requires |heads| > 0 { |heads| - 1 }
  }

  datatype Event<T> =
    | Push(item: T)           // try_push called: load tail_
    | LoadHead(at: nat)       // load head_ and test for full
    | WriteSlot
    | StoreTail
    | Pop                     // try_pop called: load head_
    | LoadTail(at: nat)       // load tail_ and test for empty
    | TakeSlot
    | StoreHead

  /** The index after `i`: `(i + 1) & (capacity - 1)` on 64-bit words. */
  function NextIndex(i: nat, cap: nat): nat
    requires cap > 0
  {
    And((i + 1) % Pow2(WIDTH), cap - 1)
  }

  function Max(a: nat, b: nat): nat { if a < b then b else a }

  function Last(order: seq<Store>): nat
    requires |order| > 0
  {
    order[|order| - 1].value
  }

  ghost predicate GoodCapacity(cap: nat) {
    exists k: nat :: k < WIDTH && cap == Pow2(k)
  }

  function Init<T>(cap: nat): State<T> {
    State(cap, seq(cap, _ => Slot(Blank, 0, 0)), [Store(0, 0)], [Store(0, 0)],
          PIdle, CIdle, 0, 0, 0, 0, 0, 0, [], [])
  }

  /** The orders are never empty and the capacity is positive. */
  predicate Shaped<T>(s: State<T>) {
    s.cap > 0 && |s.tails| > 0 && |s.heads| > 0
  }

  predicate Enabled<T>(s: State<T>, e: Event<T>) {
    match e
    case Push(_) => s.producer.PIdle?
    case LoadHead(at) => s.producer.PLoadedTail? && s.seenHead <= at < |s.heads|
    case WriteSlot => s.producer.PReady?
    case StoreTail => s.producer.PWritten?
    case Pop => s.consumer.CIdle?
    case LoadTail(at) => s.consumer.CLoadedHead? && s.seenTail <= at < |s.tails|
    case TakeSlot => s.consumer.CReady?
    case StoreHead => s.consumer.CTaken?
  }

  /** One step.  An access outside the buffer has no effect here; it is proved never to occur. */
  function Apply<T>(s: State<T>, e: Event<T>): (s': State<T>)
    requires Shaped(s) && Enabled(s, e)
    ensures Shaped(s')
  {
    match e
    case Push(item) =>
      s.(producer := PLoadedTail(Last(s.tails), item))
    case LoadHead(at) =>
      var p := s.producer;
      var next := NextIndex(p.tail, s.cap);
      s.(seenHead := at, knownTakes := Max(s.knownTakes, s.heads[at].clock),
         producer := if next == s.heads[at].value then PIdle else PReady(p.tail, next, p.item))
    case WriteSlot =>
      var p := s.producer;
      s.(slots := if p.tail < |s.slots|
                  then s.slots[p.tail := s.slots[p.tail].(cell := Full(p.item), lastWrite := s.writes + 1)]
                  else s.slots,
         writes := s.writes + 1,
         producer := PWritten(p.next, p.item))
    case StoreTail =>
      s.(tails := s.tails + [Store(s.producer.next, s.writes)],
         accepted := s.accepted + [s.producer.item],
         producer := PIdle)
    case Pop =>
      s.(consumer := CLoadedHead(Last(s.heads)))
    case LoadTail(at) =>
      var c := s.consumer;
      s.(seenTail := at, knownWrites := Max(s.knownWrites, s.tails[at].clock),
         consumer := if c.head == s.tails[at].value then CIdle else CReady(c.head))
    case TakeSlot =>
      var c := s.consumer;
      s.(slots := if c.head < |s.slots|
                  then s.slots[c.head := s.slots[c.head].(cell := Blank, lastTake := s.takes + 1)]
                  else s.slots,
         takes := s.takes + 1,
         consumer := CTaken(c.head, if c.head < |s.slots| then s.slots[c.head].cell else Blank))
    case StoreHead =>
      s.(heads := s.heads + [Store(NextIndex(s.consumer.head, s.cap), s.takes)],
         popped := s.popped + [s.consumer.taken],
         consumer := CIdle)
  }

  /** `es` is an execution from `s`: every event is enabled where it occurs. */
  ghost predicate Legal<T>(s: State<T>, es: seq<Event<T>>)
    requires Shaped(s)
    decreases |es|
  {
    es == [] || (Enabled(s, es[0]) && Legal(Apply(s, es[0]), es[1..]))
  }

  ghost function Exec<T>(s: State<T>, es: seq<Event<T>>): (s': State<T>)
    requires Shaped(s) && Legal(s, es)
    ensures Shaped(s')
    decreases |es|
  {
    if es == [] then s else Exec(Apply(s, es[0]), es[1..])
  }

  /** Executions are extended at the end. */
  lemma {:induction false} Extend<T>(s: State<T>, es: seq<Event<T>>, e: Event<T>) returns (es': seq<Event<T>>)
    requires Shaped(s) && Legal(s, es) && Enabled(Exec(s, es), e)
    ensures es' == es + [e] && Legal(s, es') && Exec(s, es') == Apply(Exec(s, es), e)
    decreases |es|
  {
    es' := es + [e];
    if es == [] {
      assert Legal(Apply(s, e), []);
    } else {
      var rest := Extend(Apply(s, es[0]), es[1..], e);
      assert es'[1..] == rest;
    }
  }

  // ---- What every step keeps ----

  /** The item of push number `j`, counting the one being published. */
  ghost function ItemAt<T>(s: State<T>, j: nat): T
    requires j < |s.accepted| || s.producer.PWritten?
  {
    if j < |s.accepted| then s.accepted[j] else s.producer.item
  }

  /** Position `i` of a modification order holds counter value `i`, wrapped. */
  ghost predicate Counts(order: seq<Store>, cap: nat)
    requires cap > 0
  {
    forall i :: 0 <= i < |order| ==> order[i] == Store(i % cap, i)
  }

  ghost predicate Counters<T>(s: State<T>) {
    && GoodCapacity(s.cap) && Shaped(s) && |s.slots| == s.cap
    && Counts(s.tails, s.cap) && Counts(s.heads, s.cap)
    && |s.accepted| == s.Pushes() && |s.popped| == s.Pops()
    && s.seenHead <= s.Pops() <= s.seenTail <= s.Pushes() < s.seenHead + s.cap
    && s.knownTakes == s.seenHead && s.knownWrites == s.seenTail
  }

  ghost predicate ProducerInv<T>(s: State<T>)
    requires Counters(s)
  {
    var p := s.Pushes();
    && s.writes == (if s.producer.PWritten? then p + 1 else p)
    && match s.producer
       case PIdle => true
       case PLoadedTail(tail, _) => tail == p % s.cap
       case PReady(tail, next, _) =>
         tail == p % s.cap && next == (p + 1) % s.cap && p + 1 < s.seenHead + s.cap
       case PWritten(next, _) =>
         next == (p + 1) % s.cap && p + 1 < s.seenHead + s.cap
  }

  ghost predicate ConsumerInv<T>(s: State<T>)
    requires Counters(s)
  {
    var c := s.Pops();
    && s.takes == (if s.consumer.CTaken? then c + 1 else c)
    && match s.consumer
       case CIdle => true
       case CLoadedHead(head) => head == c % s.cap
       case CReady(head) => head == c % s.cap && c < s.seenTail
       case CTaken(head, taken) =>
         head == c % s.cap && c < s.seenTail && taken == Full(s.accepted[c])
  }

  /** Written and not yet taken items sit in their slots. */
  ghost predicate LiveSlots<T>(s: State<T>)
    requires Counters(s) && ProducerInv(s)
  {
    forall j: nat :: s.takes <= j < s.writes ==>
      s.slots[j % s.cap].cell == Full(ItemAt(s, j)) && s.slots[j % s.cap].lastWrite == j + 1
  }

  /** A slot that push `j` will use is blank and was last taken by a pop of an earlier lap. */
  ghost predicate FreeSlots<T>(s: State<T>)
    requires Counters(s)
  {
    forall j: nat :: s.writes <= j < s.takes + s.cap ==>
      s.slots[j % s.cap].cell.Blank? && s.slots[j % s.cap].lastTake <= Max(s.cap, j + 1) - s.cap
  }

  ghost predicate Delivered<T>(s: State<T>) {
    && |s.popped| <= |s.accepted|
    && forall i :: 0 <= i < |s.popped| ==> s.popped[i] == Full(s.accepted[i])
  }

  ghost predicate Inv<T>(s: State<T>) {
    Counters(s) && ProducerInv(s) && ConsumerInv(s) && LiveSlots(s) && FreeSlots(s) && Delivered(s)
  }

  /** The mask computes the successor modulo the capacity. */
  lemma NextIndexWraps(j: nat, cap: nat)
    requires GoodCapacity(cap)
    ensures NextIndex(j % cap, cap) == (j + 1) % cap
  {
    var k: nat :| k < WIDTH && cap == Pow2(k);
    MaskedSuccessor(j, k, WIDTH);
  }

  lemma InitInv<T>(cap: nat)
    requires GoodCapacity(cap)
    ensures Inv(Init<T>(cap))
  {
    var s := Init<T>(cap);
    ModBelow(0, cap);
    forall j: nat | j < cap
      ensures j % cap == j
    {
      ModBelow(j, cap);
    }
    assert Counters(s);
    assert FreeSlots(s);
  }

  /**
   * The wrapped test for full agrees with the unbounded counters: a push is refused
   * exactly when the producer's view of head_ shows capacity - 1 items.
   */
  lemma FullTestIsExact<T>(s: State<T>, at: nat)
    requires Inv(s) && Enabled(s, LoadHead(at))
    ensures Apply(s, LoadHead(at)).producer.PIdle? <==> s.Pushes() - at == s.cap - 1
  {
    var p := s.Pushes();
    NextIndexWraps(p, s.cap);
    if at + s.cap == p + 1 {
      OneLapOn(at, s.cap);
    } else {
      WithinOneLap(at, p + 1, s.cap);
    }
  }

  /**
   * The wrapped test for empty agrees with the unbounded counters: a pop fails exactly
   * when the consumer's view of tail_ shows no item.
   */
  lemma EmptyTestIsExact<T>(s: State<T>, at: nat)
    requires Inv(s) && Enabled(s, LoadTail(at))
    ensures Apply(s, LoadTail(at)).consumer.CIdle? <==> at == s.Pops()
  {
    WithinOneLap(s.Pops(), at, s.cap);
  }

  lemma LoadHeadKeepsInv<T>(s: State<T>, at: nat)
    requires Inv(s) && Enabled(s, LoadHead(at))
    ensures Inv(Apply(s, LoadHead(at)))
  {
    FullTestIsExact(s, at);
    NextIndexWraps(s.Pushes(), s.cap);
  }

  lemma LoadTailKeepsInv<T>(s: State<T>, at: nat)
    requires Inv(s) && Enabled(s, LoadTail(at))
    ensures Inv(Apply(s, LoadTail(at)))
  {
    EmptyTestIsExact(s, at);
  }

  lemma WriteSlotKeepsInv<T>(s: State<T>)
    requires Inv(s) && Enabled(s, WriteSlot)
    ensures Inv(Apply(s, WriteSlot))
  {
    var s' := Apply(s, WriteSlot);
    var p := s.Pushes();
    forall j: nat | s'.takes <= j < s'.writes
      ensures s'.slots[j % s.cap].cell == Full(ItemAt(s', j)) && s'.slots[j % s.cap].lastWrite == j + 1
    {
      WithinOneLap(j, p, s.cap);
    }
    forall j: nat | s'.writes <= j < s'.takes + s.cap
      ensures s'.slots[j % s.cap].cell.Blank? && s'.slots[j % s.cap].lastTake <= Max(s.cap, j + 1) - s.cap
    {
      WithinOneLap(p, j, s.cap);
    }
  }

  lemma TakeSlotKeepsInv<T>(s: State<T>)
    requires Inv(s) && Enabled(s, TakeSlot)
    ensures Inv(Apply(s, TakeSlot))
  {
    assert s.slots[s.Pops() % s.cap].cell == Full(ItemAt(s, s.Pops()));
    TakeKeepsLiveSlots(s);
    TakeKeepsFreeSlots(s);
  }

  lemma TakeKeepsLiveSlots<T>(s: State<T>)
    requires Inv(s) && Enabled(s, TakeSlot)
    ensures var s' := Apply(s, TakeSlot); Counters(s') && ProducerInv(s') && LiveSlots(s')
  {
    var s' := Apply(s, TakeSlot);
    forall j: nat | s'.takes <= j < s'.writes
      ensures s'.slots[j % s.cap].cell == Full(ItemAt(s', j)) && s'.slots[j % s.cap].lastWrite == j + 1
    {
      WithinOneLap(s.Pops(), j, s.cap);
    }
  }

  lemma TakeKeepsFreeSlots<T>(s: State<T>)
    requires Inv(s) && Enabled(s, TakeSlot)
    ensures var s' := Apply(s, TakeSlot); Counters(s') && FreeSlots(s')
  {
    var s', c := Apply(s, TakeSlot), s.Pops();
    forall j: nat | s'.writes <= j < s'.takes + s.cap
      ensures s'.slots[j % s.cap].cell.Blank? && s'.slots[j % s.cap].lastTake <= Max(s.cap, j + 1) - s.cap
    {
      if j == c + s.cap {
        OneLapOn(c, s.cap);
      } else {
        WithinOneLap(c, j, s.cap);
      }
    }
  }

  lemma StoreTailKeepsInv<T>(s: State<T>)
    requires Inv(s) && Enabled(s, StoreTail)
    ensures Inv(Apply(s, StoreTail))
  {}

  lemma StoreHeadKeepsInv<T>(s: State<T>)
    requires Inv(s) && Enabled(s, StoreHead)
    ensures Inv(Apply(s, StoreHead))
  {
    NextIndexWraps(s.Pops(), s.cap);
    var s' := Apply(s, StoreHead);
    assert s'.takes == s.takes == s'.Pops() && s'.writes == s.writes && s'.slots == s.slots;
    assert Counters(s');
    assert Delivered(s');
  }

  lemma StepKeepsInv<T>(s: State<T>, e: Event<T>)
    requires Inv(s) && Enabled(s, e)
    ensures Inv(Apply(s, e))
  {
    match e
    case LoadHead(at) => LoadHeadKeepsInv(s, at);
    case LoadTail(at) => LoadTailKeepsInv(s, at);
    case WriteSlot => WriteSlotKeepsInv(s);
    case TakeSlot => TakeSlotKeepsInv(s);
    case StoreTail => StoreTailKeepsInv(s);
    case StoreHead => StoreHeadKeepsInv(s);
    case Push(_) =>
    case Pop =>
  }

  lemma {:induction false} RunKeepsInv<T>(s: State<T>, es: seq<Event<T>>)
    requires Inv(s) && Legal(s, es)
    ensures Inv(Exec(s, es))
    decreases |es|
  {
    if es != [] {
      StepKeepsInv(s, es[0]);
      RunKeepsInv(Apply(s, es[0]), es[1..]);
    }
  }

  // ---- Main results: what holds in every execution ----

  /** The items that a successful pop can still return, read off the ring by its own indices. */
  ghost function RingCount<T>(s: State<T>): nat
    requires Shaped(s)
  {
    SizeApprox(Last(s.tails), Last(s.heads), s.cap)
  }

  /** `(tail - head) & (capacity - 1)` with unsigned 64-bit subtraction. */
  function SizeApprox(tail: nat, head: nat, cap: nat): nat
    requires cap > 0
  {
    And((tail - head) % Pow2(WIDTH), cap - 1)
  }

  ghost function RingContents<T>(s: State<T>): seq<Cell<T>>
    requires Shaped(s) && |s.slots| == s.cap
  {
    seq(RingCount(s), i requires 0 <= i =>
      if i == 0 && s.consumer.CTaken? then s.consumer.taken
      else s.slots[(Last(s.heads) + i) % s.cap].cell)
  }

  /** Wrapped subtraction recovers the distance of two counters less than a lap apart. */
  lemma SizeOfDistance(p: nat, c: nat, cap: nat)
    requires GoodCapacity(cap) && c <= p < c + cap
    ensures SizeApprox(p % cap, c % cap, cap) == p - c
  {
    var k: nat :| k < WIDTH && cap == Pow2(k);
    WrappedDistance(p, c, k, WIDTH);
  }

  function Fulls<T>(s: seq<T>): seq<Cell<T>> {
    seq(|s|, i requires 0 <= i < |s| => Full(s[i]))
  }

  lemma RingHoldsTheRest<T>(s: State<T>)
    requires Inv(s)
    ensures s.popped + RingContents(s) == Fulls(s.accepted)
  {
    var c := s.Pops();
    SizeOfDistance(s.Pushes(), c, s.cap);
    forall i | 0 <= i < |s.accepted| - c
      ensures RingContents(s)[i] == Full(s.accepted[c + i])
    {
      ModOfSum(c, i, s.cap);
    }
  }

  /**
   * FIFO in every execution: what has been popped, followed by what the ring holds, is
   * exactly what has been accepted, in order.
   */
  lemma PoppedThenRingIsAccepted<T>(cap: nat, es: seq<Event<T>>)
    requires GoodCapacity(cap) && Legal(Init<T>(cap), es)
    ensures var s := Exec(Init<T>(cap), es);
      |s.slots| == cap == s.cap && s.popped + RingContents(s) == Fulls(s.accepted)
  {
    InitInv<T>(cap);
    RunKeepsInv(Init<T>(cap), es);
    RunKeepsCapacity(Init<T>(cap), es);
    RingHoldsTheRest(Exec(Init<T>(cap), es));
  }

  lemma {:induction false} RunKeepsCapacity<T>(s: State<T>, es: seq<Event<T>>)
    requires Shaped(s) && Legal(s, es)
    ensures Exec(s, es).cap == s.cap
    decreases |es|
  {
    if es != [] {
      RunKeepsCapacity(Apply(s, es[0]), es[1..]);
    }
  }

  /** The producer's next slot access is in bounds, overwrites nothing and is ordered after every earlier take. */
  ghost predicate SafeWrite<T>(s: State<T>) {
    s.producer.PReady? ==>
      && s.producer.tail < |s.slots|
      && s.slots[s.producer.tail].cell.Blank?
      && s.slots[s.producer.tail].lastTake <= s.knownTakes
  }

  /** The consumer's next slot access is in bounds, finds an item and is ordered after every earlier write. */
  ghost predicate SafeTake<T>(s: State<T>) {
    s.consumer.CReady? ==>
      && s.consumer.head < |s.slots|
      && s.slots[s.consumer.head].cell.Full?
      && s.slots[s.consumer.head].lastWrite <= s.knownWrites
  }

  /** Data-race freedom in every execution, for every choice of coherent loads. */
  lemma NoDataRace<T>(cap: nat, es: seq<Event<T>>)
    requires GoodCapacity(cap) && Legal(Init<T>(cap), es)
    ensures var s := Exec(Init<T>(cap), es);
      && SafeWrite(s) && SafeTake(s)
      && (s.producer.PReady? && s.consumer.CReady? ==> s.producer.tail != s.consumer.head)
  {
    InitInv<T>(cap);
    RunKeepsInv(Init<T>(cap), es);
    var s := Exec(Init<T>(cap), es);
    if s.producer.PReady? {
      assert s.slots[s.Pushes() % s.cap].cell.Blank?;
    }
    if s.consumer.CReady? {
      assert s.slots[s.Pops() % s.cap].cell.Full?;
    }
  }

  /**
   * `size_approx` called by the producer (its own tail_ is exact, head_ is any coherent
   * store) never under-counts, stays below the capacity, and is exact at a fresh load.
   */
  lemma SizeSeenByProducer<T>(s: State<T>, at: nat)
    requires Inv(s) && s.seenHead <= at < |s.heads|
    ensures var n := SizeApprox(Last(s.tails), s.heads[at].value, s.cap);
      && |s.accepted| - |s.popped| <= n < s.cap
      && (n == |s.accepted| - |s.popped| <==> at == |s.heads| - 1)
  {
    SizeOfDistance(s.Pushes(), at, s.cap);
  }

  /** `size_approx` called by the consumer never over-counts and is exact at a fresh load. */
  lemma SizeSeenByConsumer<T>(s: State<T>, at: nat)
    requires Inv(s) && s.seenTail <= at < |s.tails|
    ensures var n := SizeApprox(s.tails[at].value, Last(s.heads), s.cap);
      && n <= |s.accepted| - |s.popped| < s.cap
      && (n == |s.accepted| - |s.popped| <==> at == |s.tails| - 1)
  {
    SizeOfDistance(at, s.Pops(), s.cap);
  }

  /** `empty` answers for the calling thread's view of the other index. */
  lemma EmptySeenByEitherSide<T>(s: State<T>, at: nat)
    requires Inv(s)
    ensures s.seenTail <= at < |s.tails| ==>
      (Last(s.heads) == s.tails[at].value <==> at == |s.popped|)
    ensures s.seenHead <= at < |s.heads| ==>
      (s.heads[at].value == Last(s.tails) <==> at == |s.accepted|)
  {
    if s.seenTail <= at < |s.tails| {
      WithinOneLap(s.Pops(), at, s.cap);
    }
    if s.seenHead <= at < |s.heads| {
      WithinOneLap(at, s.Pushes(), s.cap);
    }
  }

  // ---- Why the hypotheses are needed ----

  /**
   * A third thread has no such guarantee: in a ring of any capacity it can load tail_
   * before, and head_ after, an item went through, and read capacity - 1 off an empty
   * queue.
   */
  lemma SizeSeenByThirdThreadCanBeWrong(cap: nat, item: int) returns (es: seq<Event<int>>)
    requires GoodCapacity(cap) && cap >= 2
    ensures Legal(Init<int>(cap), es)
    ensures var s := Exec(Init<int>(cap), es);
      |s.accepted| == |s.popped| && SizeApprox(s.tails[0].value, Last(s.heads), cap) == cap - 1
  {
    var start := Init<int>(cap);
    FirstIndices(cap);
    es := PushThrough(start, [], item, 0);
    es := PopThrough(start, es, 1);
    SizeOfDistance(cap, 1, cap);
  }

  /**
   * Whoever calls it, with tail_ loaded at position `i` and head_ at position `j`,
   * `size_approx` is the distance between them exactly if `j` is not ahead of `i` and less
   * than a lap behind.
   */
  lemma SizeIsRightExactlyWithinALap<T>(s: State<T>, i: nat, j: nat)
    requires Inv(s) && i < |s.tails| && j < |s.heads|
    ensures SizeApprox(s.tails[i].value, s.heads[j].value, s.cap) == i - j <==> j <= i < j + s.cap
  {
    if j <= i < j + s.cap {
      SizeOfDistance(i, j, s.cap);
    } else {
      SizeIsBelowCapacity(s.tails[i].value, s.heads[j].value, s.cap);
    }
  }

  lemma SizeIsBelowCapacity(tail: nat, head: nat, cap: nat)
    requires GoodCapacity(cap)
    ensures SizeApprox(tail, head, cap) < cap
  {
    var k: nat :| k < WIDTH && cap == Pow2(k);
    MaskIsMod((tail - head) % Pow2(WIDTH), k);
  }

  lemma FirstIndices(cap: nat)
    requires GoodCapacity(cap) && cap >= 2
    ensures NextIndex(0, cap) == 1 == 1 % cap && cap % cap == 0
    ensures NextIndex(1, cap) == if cap == 2 then 0 else 2
  {
    DivModUnique(cap, cap, 1, 0);
    if cap > 2 { ModBelow(2, cap); }
    ModBelow(0, cap);
    ModBelow(1, cap);
    NextIndexWraps(0, cap);
    NextIndexWraps(1, cap);
  }

  /** A whole accepted push after `es`. */
  lemma PushThrough<T>(s: State<T>, es: seq<Event<T>>, item: T, at: nat) returns (es': seq<Event<T>>)
    requires Shaped(s) && Legal(s, es)
    requires var u := Exec(s, es);
      && u.producer.PIdle? && u.seenHead <= at < |u.heads|
      && NextIndex(Last(u.tails), u.cap) != u.heads[at].value
    ensures es' == es + [Push(item), LoadHead(at), WriteSlot, StoreTail] && Legal(s, es')
    ensures var u := Exec(s, es);
      Exec(s, es') == Apply(Apply(Apply(Apply(u, Push(item)), LoadHead(at)), WriteSlot), StoreTail)
  {
    es' := Extend(s, es, Push(item));
    es' := Extend(s, es', LoadHead(at));
    es' := Extend(s, es', WriteSlot);
    es' := Extend(s, es', StoreTail);
  }

  /** A whole successful pop after `es`. */
  lemma PopThrough<T>(s: State<T>, es: seq<Event<T>>, at: nat) returns (es': seq<Event<T>>)
    requires Shaped(s) && Legal(s, es)
    requires var u := Exec(s, es);
      && u.consumer.CIdle? && u.seenTail <= at < |u.tails|
      && Last(u.heads) != u.tails[at].value
    ensures es' == es + [Pop, LoadTail(at), TakeSlot, StoreHead] && Legal(s, es')
    ensures var u := Exec(s, es);
      Exec(s, es') == Apply(Apply(Apply(Apply(u, Pop), LoadTail(at)), TakeSlot), StoreHead)
  {
    es' := Extend(s, es, Pop);
    es' := Extend(s, es', LoadTail(at));
    es' := Extend(s, es', TakeSlot);
    es' := Extend(s, es', StoreHead);
  }

  /** Both threads between calls, with `p` items pushed and `c` popped. */
  ghost predicate Between<T>(s: State<T>, cap: nat, p: nat, c: nat) {
    && Inv(s) && s.cap == cap && s.producer.PIdle? && s.consumer.CIdle?
    && s.Pushes() == p && s.Pops() == c
  }

  /** A push that the newest head_ allows. */
  lemma PushOne<T>(s: State<T>, es: seq<Event<T>>, item: T, cap: nat, p: nat, c: nat) returns (es': seq<Event<T>>)
    requires Inv(s) && Legal(s, es) && Between(Exec(s, es), cap, p, c) && p + 1 < c + cap
    ensures Legal(s, es') && Between(Exec(s, es'), cap, p + 1, c)
  {
    NextIndexWraps(p, cap);
    WithinOneLap(c, p + 1, cap);
    es' := PushThrough(s, es, item, c);
    RunKeepsInv(s, es');
  }

  /** A pop that the newest tail_ allows. */
  lemma PopOne<T>(s: State<T>, es: seq<Event<T>>, cap: nat, p: nat, c: nat) returns (es': seq<Event<T>>)
    requires Inv(s) && Legal(s, es) && Between(Exec(s, es), cap, p, c) && c < p
    ensures Legal(s, es') && Between(Exec(s, es'), cap, p, c + 1)
    ensures Exec(s, es').seenHead == Exec(s, es).seenHead
  {
    WithinOneLap(c, p, cap);
    es' := PopThrough(s, es, p);
    RunKeepsInv(s, es');
  }

  lemma {:induction false} PushMany<T>(cap: nat, item: T, n: nat) returns (es: seq<Event<T>>)
    requires GoodCapacity(cap) && n < cap
    ensures Legal(Init<T>(cap), es) && Between(Exec(Init<T>(cap), es), cap, n, 0)
    ensures Exec(Init<T>(cap), es).seenHead == 0
  {
    InitInv<T>(cap);
    if n == 0 {
      es := [];
    } else {
      es := PushMany(cap, item, n - 1);
      es := PushOne(Init<T>(cap), es, item, cap, n - 1, 0);
    }
  }

  /**
   * Exact only for the caller's view: in a ring of any capacity a stale load of tail_ can
   * make a pop fail although an item is there.
   */
  lemma PopCanMissAnItem<T>(cap: nat, item: T) returns (es: seq<Event<T>>)
    requires GoodCapacity(cap) && cap >= 2
    ensures Legal(Init<T>(cap), es + [Pop, LoadTail(0)])
    ensures var s := Exec(Init<T>(cap), es + [Pop, LoadTail(0)]);
      s.consumer.CIdle? && |s.accepted| == 1 && s.popped == []
  {
    var start := Init<T>(cap);
    FirstIndices(cap);
    es := PushThrough(start, [], item, 0);
    var more := Extend(start, es, Pop);
    more := Extend(start, more, LoadTail(0));
    assert more == es + [Pop, LoadTail(0)];
  }

  /** And a stale load of head_ can refuse a push although a slot has been freed. */
  lemma PushCanBeRefusedWithRoom<T>(cap: nat, item: T) returns (es: seq<Event<T>>)
    requires GoodCapacity(cap) && cap >= 2
    ensures Legal(Init<T>(cap), es + [Push(item), LoadHead(0)])
    ensures var s := Exec(Init<T>(cap), es + [Push(item), LoadHead(0)]);
      s.producer.PIdle? && |s.accepted| - |s.popped| == cap - 2
  {
    var start := Init<T>(cap);
    InitInv<T>(cap);
    es := PushMany(cap, item, cap - 1);
    es := PopOne(start, es, cap, cap - 1, 0);
    var more := Extend(start, es, Push(item));
    RunKeepsInv(start, more);
    FullTestIsExact(Exec(start, more), 0);
    more := Extend(start, more, LoadHead(0));
    assert more == es + [Push(item), LoadHead(0)];
  }

  /**
   * Without read-read coherence the wrapped test is unsound, in a ring of any capacity.
   * Fill the ring, pop once and push once more: a producer that could load the oldest
   * head_ again would be allowed a push that makes the full ring look empty, with as many
   * items undelivered as it has slots.
   */
  lemma IncoherentLoadLosesItems<T>(cap: nat, item: T) returns (es: seq<Event<T>>, lost: State<T>)
    requires GoodCapacity(cap) && cap >= 2
    ensures Legal(Init<T>(cap), es)
    ensures var s := Exec(Init<T>(cap), es).(seenHead := 0);
      Legal(s, [Push(item), LoadHead(0), WriteSlot, StoreTail]) &&
      lost == Exec(s, [Push(item), LoadHead(0), WriteSlot, StoreTail])
    ensures |lost.accepted| == |lost.popped| + cap && Last(lost.tails) == Last(lost.heads)
  {
    var start := Init<T>(cap);
    InitInv<T>(cap);
    es := PushMany(cap, item, cap - 1);
    es := PopOne(start, es, cap, cap - 1, 0);
    es := PushOne(start, es, item, cap, cap - 1, 1);
    var s := Exec(start, es).(seenHead := 0);
    OneLapIndices(Exec(start, es));
    lost := PushOverFull(s, item);
  }

  /** The indices one lap on: tail_ is zero again, head_ is one. */
  lemma OneLapIndices<T>(u: State<T>)
    requires u.cap >= 2 && Between(u, u.cap, u.cap, 1)
    ensures Last(u.tails) == 0 && Last(u.heads) == 1 && u.heads[0].value == 0 && NextIndex(0, u.cap) == 1
  {
    FirstIndices(u.cap);
    ModBelow(0, u.cap);
  }

  lemma PushOverFull<T>(s: State<T>, item: T) returns (lost: State<T>)
    requires Shaped(s) && s.producer.PIdle? && s.seenHead == 0 && s.heads[0].value == 0
    requires Last(s.tails) == 0 && NextIndex(0, s.cap) == 1
    ensures Legal(s, [Push(item), LoadHead(0), WriteSlot, StoreTail])
    ensures lost == Exec(s, [Push(item), LoadHead(0), WriteSlot, StoreTail])
    ensures |lost.accepted| == |s.accepted| + 1 && lost.popped == s.popped
    ensures Last(lost.tails) == 1 && lost.heads == s.heads
  {
    var more := PushThrough(s, [], item, 0);
    assert more == [Push(item), LoadHead(0), WriteSlot, StoreTail];
    lost := Exec(s, more);
  }

  /**
   * Without the release clock of the tail_ store the consumer's first take would race
   * with the producer's write, whatever the capacity.
   */
  lemma RelaxedStoreWouldRace(cap: nat) returns (es: seq<Event<int>>)
    requires GoodCapacity(cap) && cap >= 2
    ensures Legal(Init<int>(cap), es) && |Exec(Init<int>(cap), es).tails| == 2
    ensures var s := Exec(Init<int>(cap), es);
      var relaxed := s.(tails := s.tails[1 := s.tails[1].(clock := 0)]);
      && Enabled(relaxed, Pop) && Enabled(Apply(relaxed, Pop), LoadTail(1))
      && !SafeTake(Apply(Apply(relaxed, Pop), LoadTail(1)))
  {
    FirstIndices(cap);
    es := PushThrough(Init<int>(cap), [], 1, 0);
  }
}

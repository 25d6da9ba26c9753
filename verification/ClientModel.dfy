/**
 * The client's receive path: a receiver thread that reads messages from the socket and
 * pushes them into the ring buffer, a consumer thread that pops them, and an owner that
 * connects once and closes.  The socket is an unconstrained source of messages.
 *
 * The run flag is atomic, and the receiver may still load `true` after `close` has
 * stored `false`.
 */
module ClientModel {
  import Q = SpscModel

  datatype Message = Message(payload: string, isText: bool)

  datatype Receiver =
    | NotStarted
    | Checking            // while (running_)
    | Reading             // ws_.read
    | HasRead(m: Message)
    | Pushing             // inside try_push
    | Exiting             // after the loop
    | Finished

  datatype Owner = New | Connecting | Open | Closing | Joining | Shut

  datatype State = State(
    queue: Q.State<Message>,
    running: bool,
    receiver: Receiver,
    owner: Owner,
    joinable: bool,
    read: seq<Message>,   // messages read from the socket
    dropped: set<nat>)    // positions in `read` of refused pushes

  datatype Event =
    | Connect             // handshake done: store true to running_
    | Spawn
    | StoreFalse          // close, or close again from the destructor
    | CloseSocket
    | Join
    | LoadRunning(value: bool)
    | Read(m: Message)
    | ReadFails
    | BeginPush
    | Produce(at: nat)    // the next step of try_push; `at` is used by its load of head_
    | Exit
    | Consume(q: Q.Event<Message>)

  function Init(cap: nat): State {
    State(Q.Init(cap), false, NotStarted, New, false, [], {})
  }

  predicate IsConsumerEvent(q: Q.Event<Message>) {
    q.Pop? || q.LoadTail? || q.TakeSlot? || q.StoreHead?
  }

  /** The step of `try_push` that is next. */
  function NextPush(s: Q.State<Message>, at: nat): Q.Event<Message> {
    match s.producer
    case PReady(_, _, _) => Q.WriteSlot
    case PWritten(_, _) => Q.StoreTail
    case _ => Q.LoadHead(at)
  }

  /** The step of the ring buffer that an event takes, if any. */
  predicate MovesQueue(e: Event) {
    e.BeginPush? || e.Produce? || e.Consume?
  }

  function QueueEvent(s: State, e: Event): Q.Event<Message>
    requires MovesQueue(e) && (e.BeginPush? ==> s.receiver.HasRead?)
  {
    match e
    case BeginPush => Q.Push(s.receiver.m)
    case Produce(at) => NextPush(s.queue, at)
    case Consume(q) => q
  }

  predicate Enabled(s: State, e: Event) {
    match e
    case Connect => s.owner.New?
    case Spawn => s.owner.Connecting?
    case StoreFalse => s.owner.Open? || s.owner.Shut?
    case CloseSocket => s.owner.Closing?
    case Join => s.owner.Joining? && (s.joinable ==> s.receiver.Finished?)
    case LoadRunning(value) => s.receiver.Checking? && (!value ==> !s.running)
    case Read(_) => s.receiver.Reading?
    case ReadFails => s.receiver.Reading?
    case BeginPush => s.receiver.HasRead? && Q.Enabled(s.queue, QueueEvent(s, e))
    case Produce(_) => s.receiver.Pushing? && Q.Enabled(s.queue, QueueEvent(s, e))
    case Exit => s.receiver.Exiting?
    case Consume(q) => IsConsumerEvent(q) && Q.Enabled(s.queue, q)
  }

  function Apply(s: State, e: Event): (s': State)
    requires Q.Shaped(s.queue) && Enabled(s, e)
    ensures Q.Shaped(s'.queue)
  {
    match e
    case Connect => s.(running := true, owner := Connecting)
    case Spawn => s.(receiver := Checking, joinable := true, owner := Open)
    case StoreFalse => s.(running := false, owner := Closing)
    case CloseSocket => s.(owner := Joining)
    case Join => s.(joinable := false, owner := Shut)
    case LoadRunning(value) => s.(receiver := if value then Reading else Exiting)
    case Read(m) => s.(receiver := HasRead(m), read := s.read + [m])
    case ReadFails => s.(receiver := Exiting)
    case BeginPush => s.(queue := Q.Apply(s.queue, QueueEvent(s, e)), receiver := Pushing)
    case Produce(_) =>
      var q := Q.Apply(s.queue, QueueEvent(s, e));
      s.(queue := q,
         receiver := if q.producer.PIdle? then Checking else Pushing,
         dropped := if s.queue.producer.PLoadedTail? && q.producer.PIdle? && |s.read| > 0
                    then s.dropped + {|s.read| - 1} else s.dropped)
    case Exit => s.(running := false, receiver := Finished)
    case Consume(q) => s.(queue := Q.Apply(s.queue, q))
  }

  ghost predicate Legal(s: State, es: seq<Event>)
    requires Q.Shaped(s.queue)
    decreases |es|
  {
    es == [] || (Enabled(s, es[0]) && Legal(Apply(s, es[0]), es[1..]))
  }

  ghost function Exec(s: State, es: seq<Event>): (s': State)
    requires Q.Shaped(s.queue) && Legal(s, es)
    ensures Q.Shaped(s'.queue)
    decreases |es|
  {
    if es == [] then s else Exec(Apply(s, es[0]), es[1..])
  }

  /** A run followed by another from where it leads. */
  lemma {:induction false} Concat(s: State, es: seq<Event>, more: seq<Event>)
    requires Q.Shaped(s.queue) && Legal(s, es) && Legal(Exec(s, es), more)
    ensures Legal(s, es + more) && Exec(s, es + more) == Exec(Exec(s, es), more)
    decreases |es|
  {
    if es == [] {
      assert es + more == more;
    } else {
      Concat(Apply(s, es[0]), es[1..], more);
      assert (es + more)[1..] == es[1..] + more;
    }
  }

  // ---- What every step keeps ----

  /** The messages at positions that were not dropped, in order. */
  function Keep(read: seq<Message>, dropped: set<nat>): seq<Message> {
    if read == [] then []
    else
      var n := |read| - 1;
      Keep(read[..n], dropped) + (if n in dropped then [] else [read[n]])
  }

  /** Messages whose push has been decided; one more may be on its way. */
  function Settled(s: State): nat {
    if (s.receiver.HasRead? || s.receiver.Pushing?) && |s.read| > 0 then |s.read| - 1 else |s.read|
  }

  ghost predicate Threads(s: State) {
    && (s.running <==> (s.owner.Connecting? || s.owner.Open?) && !s.receiver.Finished?)
    && (s.owner.New? || s.owner.Connecting? <==> s.receiver.NotStarted?)
    && (s.receiver.NotStarted? ==> !s.joinable)
    && (!s.receiver.NotStarted? && !s.joinable ==> s.receiver.Finished?)
    && (s.owner.Shut? ==> s.receiver.Finished? && !s.joinable)
  }

  ghost predicate InFlight(s: State) {
    && (s.receiver.Pushing? <==> !s.queue.producer.PIdle?)
    && (s.receiver.HasRead? || s.receiver.Pushing? ==> |s.read| > 0)
    && (s.receiver.HasRead? ==> s.receiver.m == s.read[|s.read| - 1])
    && (s.receiver.Pushing? ==> s.queue.producer.item == s.read[|s.read| - 1])
  }

  ghost predicate Kept(s: State) {
    && (forall i :: i in s.dropped ==> i < Settled(s))
    && s.queue.accepted == Keep(s.read[..Settled(s)], s.dropped)
  }

  ghost predicate Inv(s: State) {
    Q.Inv(s.queue) && Threads(s) && InFlight(s) && Kept(s)
  }

  lemma InitInv(cap: nat)
    requires Q.GoodCapacity(cap)
    ensures Inv(Init(cap))
  {
    Q.InitInv<Message>(cap);
  }

  /** Positions past the end do not matter. */
  lemma {:induction false} KeepIgnoresLater(read: seq<Message>, dropped: set<nat>, i: nat)
    requires i >= |read|
    ensures Keep(read, dropped + {i}) == Keep(read, dropped)
  {
    if read != [] {
      KeepIgnoresLater(read[..|read| - 1], dropped, i);
    }
  }

  lemma KeepOfOneMore(read: seq<Message>, dropped: set<nat>, n: nat)
    requires n < |read|
    ensures Keep(read[..n + 1], dropped) == Keep(read[..n], dropped) + (if n in dropped then [] else [read[n]])
  {
    assert read[..n + 1][..n] == read[..n];
  }

  lemma ProduceKeepsKept(s: State, at: nat)
    requires Inv(s) && Enabled(s, Produce(at))
    ensures Kept(Apply(s, Produce(at)))
  {
    var s' := Apply(s, Produce(at));
    var n := |s.read| - 1;
    if s'.queue.producer.PIdle? {
      assert s'.read[..n + 1] == s.read;
      if s.queue.producer.PLoadedTail? {
        KeepIgnoresLater(s.read[..n], s.dropped, n);
        KeepOfOneMore(s.read, s'.dropped, n);
      } else {
        KeepOfOneMore(s.read, s.dropped, n);
      }
    }
  }

  lemma ReadKeepsKept(s: State, m: Message)
    requires Inv(s) && Enabled(s, Read(m))
    ensures Kept(Apply(s, Read(m)))
  {
    assert (s.read + [m])[..|s.read|] == s.read == s.read[..|s.read|];
  }

  lemma StepKeepsThreads(s: State, e: Event)
    requires Q.Shaped(s.queue) && Threads(s) && InFlight(s) && Enabled(s, e)
    ensures Threads(Apply(s, e))
  {}

  lemma StepKeepsInFlight(s: State, e: Event)
    requires Q.Shaped(s.queue) && Threads(s) && InFlight(s) && Enabled(s, e)
    ensures InFlight(Apply(s, e))
  {
    match e
    case Consume(q) => ConsumerLeavesProducer(s.queue, q);
    case Produce(at) => ProducerKeepsItem(s.queue, at);
    case _ =>
  }

  lemma ConsumerLeavesProducer(s: Q.State<Message>, q: Q.Event<Message>)
    requires Q.Shaped(s) && IsConsumerEvent(q) && Q.Enabled(s, q)
    ensures Q.Apply(s, q).producer == s.producer && Q.Apply(s, q).accepted == s.accepted
  {}

  /** A step of a push ends the push or keeps its item. */
  lemma ProducerKeepsItem(s: Q.State<Message>, at: nat)
    requires Q.Shaped(s) && !s.producer.PIdle? && Q.Enabled(s, NextPush(s, at))
    ensures var p := Q.Apply(s, NextPush(s, at)).producer; p.PIdle? || p.item == s.producer.item
  {}

  lemma StepKeepsKept(s: State, e: Event)
    requires Inv(s) && Enabled(s, e)
    ensures Kept(Apply(s, e))
  {
    match e
    case Produce(at) => ProduceKeepsKept(s, at);
    case Read(m) => ReadKeepsKept(s, m);
    case _ => OthersKeepKept(s, e);
  }

  lemma OthersKeepKept(s: State, e: Event)
    requires Q.Shaped(s.queue) && Threads(s) && InFlight(s) && Kept(s) && Enabled(s, e) && !e.Produce? && !e.Read?
    ensures Kept(Apply(s, e))
  {}

  lemma StepKeepsInv(s: State, e: Event)
    requires Inv(s) && Enabled(s, e)
    ensures Inv(Apply(s, e))
  {
    if MovesQueue(e) {
      Q.StepKeepsInv(s.queue, QueueEvent(s, e));
    }
    StepKeepsThreads(s, e);
    StepKeepsInFlight(s, e);
    StepKeepsKept(s, e);
  }

  lemma {:induction false} RunKeepsInv(s: State, es: seq<Event>)
    requires Inv(s) && Legal(s, es)
    ensures Inv(Exec(s, es))
    decreases |es|
  {
    if es != [] {
      StepKeepsInv(s, es[0]);
      RunKeepsInv(Apply(s, es[0]), es[1..]);
    }
  }

  lemma ReachableInv(cap: nat, es: seq<Event>)
    requires Q.GoodCapacity(cap) && Legal(Init(cap), es)
    ensures Inv(Exec(Init(cap), es))
  {
    InitInv(cap);
    RunKeepsInv(Init(cap), es);
  }

  // ---- Main results ----

  /**
   * Conservation in every run: the messages read split into popped, queued and dropped;
   * the popped ones followed by the queued ones are the messages read minus the drops,
   * in order.
   */
  lemma PoppedQueuedAndDropped(cap: nat, es: seq<Event>)
    requires Q.GoodCapacity(cap) && Legal(Init(cap), es)
    ensures var s := Exec(Init(cap), es);
      && |s.queue.slots| == s.queue.cap && Settled(s) <= |s.read| <= Settled(s) + 1
      && s.queue.popped + Q.RingContents(s.queue) == Q.Fulls(Keep(s.read[..Settled(s)], s.dropped))
  {
    ReachableInv(cap, es);
    Q.RingHoldsTheRest(Exec(Init(cap), es).queue);
  }

  /** A message is dropped exactly when the receiver's view of the queue shows capacity - 1 items. */
  lemma DropsExactlyWhenViewIsFull(cap: nat, es: seq<Event>, at: nat)
    requires Q.GoodCapacity(cap) && Legal(Init(cap), es)
    requires var s := Exec(Init(cap), es); s.queue.producer.PLoadedTail? && Enabled(s, Produce(at))
    ensures var s := Exec(Init(cap), es);
      Apply(s, Produce(at)).dropped != s.dropped <==> s.queue.Pushes() - at == s.queue.cap - 1
  {
    ReachableInv(cap, es);
    Q.FullTestIsExact(Exec(Init(cap), es).queue, at);
  }

  /** After `close` has returned nothing more is read, pushed or dropped, and the client stays stopped. */
  lemma ClosedClientIsSilent(cap: nat, es: seq<Event>, more: seq<Event>)
    requires Q.GoodCapacity(cap) && Legal(Init(cap), es) && Exec(Init(cap), es).owner.Shut?
    requires Legal(Exec(Init(cap), es), more)
    ensures var s, t := Exec(Init(cap), es), Exec(Exec(Init(cap), es), more);
      && !s.running && !t.running
      && t.read == s.read && t.dropped == s.dropped && t.queue.accepted == s.queue.accepted
  {
    ReachableInv(cap, es);
    SilentFrom(Exec(Init(cap), es), more);
  }

  lemma SilentStep(s: State, e: Event)
    requires Inv(s) && Enabled(s, e) && s.receiver.Finished?
    ensures var t := Apply(s, e);
      && t.receiver.Finished? && !t.running
      && t.read == s.read && t.dropped == s.dropped && t.queue.accepted == s.queue.accepted
  {}

  lemma {:induction false} SilentFrom(s: State, more: seq<Event>)
    requires Inv(s) && s.receiver.Finished? && Legal(s, more)
    ensures var t := Exec(s, more);
      !t.running && t.read == s.read && t.dropped == s.dropped && t.queue.accepted == s.queue.accepted
    decreases |more|
  {
    if more != [] {
      StepKeepsInv(s, more[0]);
      SilentStep(s, more[0]);
      SilentFrom(Apply(s, more[0]), more[1..]);
    }
  }

  /** `is_running` is true exactly from the handshake until `close` is called or the receiver has ended. */
  lemma RunningExactlyWhileOpen(cap: nat, es: seq<Event>)
    requires Q.GoodCapacity(cap) && Legal(Init(cap), es)
    ensures var s := Exec(Init(cap), es);
      s.running <==> (s.owner.Connecting? || s.owner.Open?) && !s.receiver.Finished?
  {
    ReachableInv(cap, es);
  }

  /** The receiver has left its loop. */
  predicate HasLeft(s: State) {
    s.receiver.Exiting? || s.receiver.Finished?
  }

  lemma LeftStep(s: State, e: Event)
    requires Inv(s) && Enabled(s, e) && HasLeft(s)
    ensures var t := Apply(s, e);
      && HasLeft(t) && t.read == s.read && t.dropped == s.dropped && t.queue.accepted == s.queue.accepted
  {}

  lemma {:induction false} LeftForGood(s: State, more: seq<Event>)
    requires Inv(s) && HasLeft(s) && Legal(s, more)
    ensures var t := Exec(s, more);
      && Inv(t) && HasLeft(t) && t.read == s.read && t.dropped == s.dropped
      && t.queue.accepted == s.queue.accepted
    decreases |more|
  {
    if more != [] {
      StepKeepsInv(s, more[0]);
      LeftStep(s, more[0]);
      LeftForGood(Apply(s, more[0]), more[1..]);
    }
  }

  /**
   * A failed read, or a run flag found clear, ends the receiver: nothing more is read,
   * pushed or dropped, and once its thread has finished the client is not running.
   */
  lemma FailedReadEndsReceiver(cap: nat, es: seq<Event>, e: Event, more: seq<Event>)
    requires Q.GoodCapacity(cap) && Legal(Init(cap), es) && Enabled(Exec(Init(cap), es), e)
    requires e.ReadFails? || e == LoadRunning(false)
    requires Legal(Apply(Exec(Init(cap), es), e), more)
    ensures var s := Exec(Init(cap), es); var t := Exec(Apply(s, e), more);
      && t.read == s.read && t.dropped == s.dropped && t.queue.accepted == s.queue.accepted
      && (t.receiver.Exiting? || (t.receiver.Finished? && !t.running))
  {
    ReachableInv(cap, es);
    StepKeepsInv(Exec(Init(cap), es), e);
    LeftForGood(Apply(Exec(Init(cap), es), e), more);
  }
}

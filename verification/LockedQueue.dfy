/**
 * The older receive path: an unbounded queue protected by a mutex, with a condition
 * variable for the one consumer.  It is the specification that the lock-free path is
 * compared with.
 */
module LockedQueue {

  datatype Lock = Free | HeldByReceiver | HeldByConsumer

  /** `receiveContinuous`; the lock is held from `Holding` to `Notified`. */
  datatype Receiver<M> = Reading | Wanting(m: M) | Holding(m: M) | Pushed | Notified | Ended

  /** `getResponse`; a waiting consumer has given up the lock. */
  datatype Consumer = Idle | Calling | Testing | Waiting | Woken | Taking | Leaving

  datatype State<M> = State(
    messages: seq<M>,
    lock: Lock,
    receiver: Receiver<M>,
    consumer: Consumer,
    pushed: seq<M>,
    delivered: seq<M>)

  datatype Event<M> =
    | Read(m: M) | ReadFails | ReceiverLocks | PushMessage | Notify | ReceiverUnlocks
    | Call | ConsumerLocks | Test | SpuriousWake | Relock | Take | ConsumerUnlocks

  function Init<M>(): State<M> {
    State([], Free, Reading, Idle, [], [])
  }

  predicate Enabled<M>(s: State<M>, e: Event<M>) {
    match e
    case Read(_) => s.receiver.Reading?
    case ReadFails => s.receiver.Reading?
    case ReceiverLocks => s.receiver.Wanting? && s.lock.Free?
    case PushMessage => s.receiver.Holding?
    case Notify => s.receiver.Pushed?
    case ReceiverUnlocks => s.receiver.Notified?
    case Call => s.consumer.Idle?
    case ConsumerLocks => s.consumer.Calling? && s.lock.Free?
    case Test => s.consumer.Testing?
    case SpuriousWake => s.consumer.Waiting?
    case Relock => s.consumer.Woken? && s.lock.Free?
    case Take => s.consumer.Taking? && s.messages != []
    case ConsumerUnlocks => s.consumer.Leaving?
  }

  function Apply<M>(s: State<M>, e: Event<M>): State<M>
    requires Enabled(s, e)
  {
    match e
    case Read(m) => s.(receiver := Wanting(m))
    case ReadFails => s.(receiver := Ended)
    case ReceiverLocks => s.(receiver := Holding(s.receiver.m), lock := HeldByReceiver)
    case PushMessage =>
      s.(messages := s.messages + [s.receiver.m], pushed := s.pushed + [s.receiver.m], receiver := Pushed)
    case Notify => s.(receiver := Notified, consumer := if s.consumer.Waiting? then Woken else s.consumer)
    case ReceiverUnlocks => s.(receiver := Reading, lock := Free)
    case Call => s.(consumer := Calling)
    case ConsumerLocks => s.(consumer := Testing, lock := HeldByConsumer)
    case Test => if s.messages == [] then s.(consumer := Waiting, lock := Free) else s.(consumer := Taking)
    case SpuriousWake => s.(consumer := Woken)
    case Relock => s.(consumer := Testing, lock := HeldByConsumer)
    case Take =>
      s.(delivered := s.delivered + [s.messages[0]], messages := s.messages[1..], consumer := Leaving)
    case ConsumerUnlocks => s.(consumer := Idle, lock := Free)
  }

  ghost predicate Legal<M>(s: State<M>, es: seq<Event<M>>)
    decreases |es|
  {
    es == [] || (Enabled(s, es[0]) && Legal(Apply(s, es[0]), es[1..]))
  }

  ghost function Exec<M>(s: State<M>, es: seq<Event<M>>): State<M>
    requires Legal(s, es)
    decreases |es|
  {
    if es == [] then s else Exec(Apply(s, es[0]), es[1..])
  }

  lemma {:induction false} Extend<M>(s: State<M>, es: seq<Event<M>>, e: Event<M>) returns (es': seq<Event<M>>)
    requires Legal(s, es) && Enabled(Exec(s, es), e)
    ensures es' == es + [e] && Legal(s, es') && Exec(s, es') == Apply(Exec(s, es), e)
    decreases |es|
  {
    es' := es + [e];
    if es == [] {
      assert Legal(Apply(s, e), []);
    } else {
      var rest := Extend(Apply(s, es[0]), es[1..], e);
      assert es'[1..] == rest;
    }
  }

  ghost predicate Inv<M>(s: State<M>) {
    && (s.lock.HeldByReceiver? <==> s.receiver.Holding? || s.receiver.Pushed? || s.receiver.Notified?)
    && (s.lock.HeldByConsumer? <==> s.consumer.Testing? || s.consumer.Taking? || s.consumer.Leaving?)
    && s.delivered + s.messages == s.pushed
    && (s.consumer.Taking? ==> s.messages != [])
    && (s.consumer.Waiting? ==> s.messages == [] || s.receiver.Pushed?)
  }

  lemma StepKeepsInv<M>(s: State<M>, e: Event<M>)
    requires Inv(s) && Enabled(s, e)
    ensures Inv(Apply(s, e))
  {}

  lemma {:induction false} RunKeepsInv<M>(s: State<M>, es: seq<Event<M>>)
    requires Inv(s) && Legal(s, es)
    ensures Inv(Exec(s, es))
    decreases |es|
  {
    if es != [] {
      StepKeepsInv(s, es[0]);
      RunKeepsInv(Apply(s, es[0]), es[1..]);
    }
  }

  /** Delivery is first in, first out, and nothing is lost or invented. */
  lemma DeliveredThenQueuedIsPushed<M>(es: seq<Event<M>>)
    requires Legal(Init<M>(), es)
    ensures var s := Exec(Init<M>(), es); s.delivered + s.messages == s.pushed
  {
    RunKeepsInv(Init<M>(), es);
  }

  /**
   * No wakeup is lost: whenever the mutex is free and the consumer is blocked with no
   * notification on its way, there is nothing for it to take.
   */
  lemma NoLostWakeup<M>(es: seq<Event<M>>)
    requires Legal(Init<M>(), es)
    ensures var s := Exec(Init<M>(), es);
      s.lock.Free? && s.consumer.Waiting? ==> s.messages == []
  {
    RunKeepsInv(Init<M>(), es);
  }

  /** The queue and the delivery are only touched by the thread that holds the lock. */
  lemma LockProtectsTheQueue<M>(es: seq<Event<M>>, e: Event<M>)
    requires Legal(Init<M>(), es) && Enabled(Exec(Init<M>(), es), e)
    ensures var s := Exec(Init<M>(), es);
      Apply(s, e).messages != s.messages ==>
        (e.PushMessage? && s.lock.HeldByReceiver?) || (e.Take? && s.lock.HeldByConsumer?)
  {
    RunKeepsInv(Init<M>(), es);
  }

  /** After a failed read nothing more is queued. */
  lemma {:induction false} EndedPushesNothing<M>(s: State<M>, more: seq<Event<M>>)
    requires s.receiver.Ended? && Legal(s, more)
    ensures Exec(s, more).receiver.Ended? && Exec(s, more).pushed == s.pushed
    decreases |more|
  {
    if more != [] {
      EndedPushesNothing(Apply(s, more[0]), more[1..]);
    }
  }

  lemma FailedReadEndsReceiver<M>(es: seq<Event<M>>, more: seq<Event<M>>)
    requires Legal(Init<M>(), es) && Exec(Init<M>(), es).receiver.Reading?
    requires Legal(Apply(Exec(Init<M>(), es), ReadFails), more)
    ensures Exec(Apply(Exec(Init<M>(), es), ReadFails), more).pushed == Exec(Init<M>(), es).pushed
  {
    EndedPushesNothing(Apply(Exec(Init<M>(), es), ReadFails), more);
  }

  // ---- Every message read is queued, every call that returns has a message ----

  /** The messages that a run reads from the socket. */
  ghost function ReadsIn<M>(es: seq<Event<M>>): seq<M> {
    if es == [] then [] else (if es[0].Read? then [es[0].m] else []) + ReadsIn(es[1..])
  }

  /** The calls of `getResponse` that a run begins. */
  ghost function CallsIn<M>(es: seq<Event<M>>): nat {
    if es == [] then 0 else (if es[0].Call? then 1 else 0) + CallsIn(es[1..])
  }

  /** A message read and not yet queued. */
  function InHand<M>(r: Receiver<M>): seq<M> {
    match r
    case Wanting(m) => [m]
    case Holding(m) => [m]
    case _ => []
  }

  /** A call that has no message yet. */
  function Open(c: Consumer): nat {
    match c
    case Calling | Testing | Waiting | Woken | Taking => 1
    case _ => 0
  }

  lemma ReadStep<M>(s: State<M>, e: Event<M>)
    requires Enabled(s, e)
    ensures var t := Apply(s, e);
      t.pushed + InHand(t.receiver) == s.pushed + InHand(s.receiver) + (if e.Read? then [e.m] else [])
  {}

  lemma CallStep<M>(s: State<M>, e: Event<M>)
    requires Enabled(s, e)
    ensures var t := Apply(s, e);
      |t.delivered| + Open(t.consumer) == |s.delivered| + Open(s.consumer) + (if e.Call? then 1 else 0)
  {}

  lemma {:induction false} ReadsFrom<M>(s: State<M>, es: seq<Event<M>>)
    requires Legal(s, es)
    ensures var t := Exec(s, es); t.pushed + InHand(t.receiver) == s.pushed + InHand(s.receiver) + ReadsIn(es)
    decreases |es|
  {
    if es != [] {
      ReadStep(s, es[0]);
      ReadsFrom(Apply(s, es[0]), es[1..]);
      ghost var before, now := s.pushed + InHand(s.receiver), if es[0].Read? then [es[0].m] else [];
      assert before + now + ReadsIn(es[1..]) == before + (now + ReadsIn(es[1..]));
    }
  }

  lemma {:induction false} CallsFrom<M>(s: State<M>, es: seq<Event<M>>)
    requires Legal(s, es)
    ensures var t := Exec(s, es); |t.delivered| + Open(t.consumer) == |s.delivered| + Open(s.consumer) + CallsIn(es)
    decreases |es|
  {
    if es != [] {
      CallStep(s, es[0]);
      CallsFrom(Apply(s, es[0]), es[1..]);
    }
  }

  /**
   * In every run the messages queued, and the one in hand, are the messages read, in
   * order; and every call has delivered a message or is still waiting for one.
   */
  lemma ReadsAreQueuedAndCallsAnswered<M>(es: seq<Event<M>>)
    requires Legal(Init<M>(), es)
    ensures var t := Exec(Init<M>(), es);
      t.pushed + InHand(t.receiver) == ReadsIn(es) && |t.delivered| + Open(t.consumer) == CallsIn(es)
  {
    ReadsFrom(Init<M>(), es);
    CallsFrom(Init<M>(), es);
  }

  // ---- Whole operations ----

  /** At rest: nobody holds or waits for anything. */
  predicate AtRest<M>(s: State<M>) {
    s.lock.Free? && s.receiver.Reading? && s.consumer.Idle?
  }

  /** One message read and queued. */
  function QueueOperation<M>(m: M): seq<Event<M>> {
    [Read(m), ReceiverLocks, PushMessage, Notify, ReceiverUnlocks]
  }

  /** One call that finds a message. */
  function DeliverOperation<M>(): seq<Event<M>> {
    [Call, ConsumerLocks, Test, Take, ConsumerUnlocks]
  }

  lemma Queue<M>(s: State<M>, m: M)
    requires AtRest(s)
    ensures Legal(s, QueueOperation(m))
    ensures Exec(s, QueueOperation(m)) == s.(messages := s.messages + [m], pushed := s.pushed + [m])
  {
    var es := Extend(s, [], Read(m));
    es := Extend(s, es, ReceiverLocks);
    es := Extend(s, es, PushMessage);
    es := Extend(s, es, Notify);
    es := Extend(s, es, ReceiverUnlocks);
    assert es == QueueOperation(m);
  }

  lemma Deliver<M>(s: State<M>)
    requires AtRest(s) && s.messages != []
    ensures Legal(s, DeliverOperation<M>())
    ensures Exec(s, DeliverOperation<M>()) ==
      s.(messages := s.messages[1..], delivered := s.delivered + [s.messages[0]])
  {
    var es := Extend(s, [], Call);
    es := Extend(s, es, ConsumerLocks);
    es := Extend(s, es, Test);
    assert Exec(s, es) == s.(consumer := Taking, lock := HeldByConsumer);
    es := Extend(s, es, Take);
    es := Extend(s, es, ConsumerUnlocks);
    assert es == DeliverOperation<M>();
  }

  /** A run followed by another from where it leads. */
  lemma {:induction false} Concat<M>(s: State<M>, es: seq<Event<M>>, more: seq<Event<M>>)
    requires Legal(s, es) && Legal(Exec(s, es), more)
    ensures Legal(s, es + more) && Exec(s, es + more) == Exec(Exec(s, es), more)
    decreases |es|
  {
    if es == [] {
      assert es + more == more;
    } else {
      Concat(Apply(s, es[0]), es[1..], more);
      assert (es + more)[1..] == es[1..] + more;
    }
  }
}

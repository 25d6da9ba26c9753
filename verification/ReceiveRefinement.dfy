/**
 * The lock-free receive path refines the mutex-protected queue it replaces.
 */
module ReceiveRefinement {
  import Q = SpscModel
  import L = LockedQueue
  import opened ClientModel

  /** The two queues hold, and have delivered, the same messages with the same tags. */
  ghost predicate Matches(c: Q.State<Message>, l: L.State<Message>) {
    && L.AtRest(l)
    && |c.popped| <= |c.accepted|
    && l.pushed == c.accepted
    && Q.Fulls(l.delivered) == c.popped
    && l.messages == c.accepted[|c.popped|..]
  }

  /**
   * The operation of the locked queue that a ring-buffer step stands for: the store of
   * tail_ queues a message, the store of head_ delivers one, and no other step shows.
   */
  ghost function Operation(c: Q.State<Message>, e: Q.Event<Message>): seq<L.Event<Message>>
    requires Q.Enabled(c, e)
  {
    match e
    case StoreTail => L.QueueOperation(c.producer.item)
    case StoreHead => L.DeliverOperation()
    case _ => []
  }

  /** A step of the ring buffer is matched by a whole operation of the locked queue, or by nothing. */
  lemma MatchStep(c: Q.State<Message>, e: Q.Event<Message>, l: L.State<Message>)
    requires Q.Inv(c) && Q.Enabled(c, e) && Matches(c, l)
    ensures L.Legal(l, Operation(c, e)) && Matches(Q.Apply(c, e), L.Exec(l, Operation(c, e)))
  {
    var c' := Q.Apply(c, e);
    if e.StoreTail? {
      L.Queue(l, c.producer.item);
      assert c'.accepted[|c'.popped|..] == c.accepted[|c.popped|..] + [c.producer.item];
    } else if e.StoreHead? {
      assert c.consumer.taken == Q.Full(c.accepted[|c.popped|]);
      assert l.messages[0] == c.accepted[|c.popped|];
      L.Deliver(l);
      assert c'.accepted[|c'.popped|..] == c.accepted[|c.popped|..][1..];
      assert Q.Fulls(l.delivered + [l.messages[0]]) == Q.Fulls(l.delivered) + [Q.Full(l.messages[0])];
    }
  }

  /** The operation that a step of the client stands for. */
  ghost function StepOperation(s: State, e: Event): seq<L.Event<Message>>
    requires Enabled(s, e)
  {
    if MovesQueue(e) then Operation(s.queue, QueueEvent(s, e)) else []
  }

  /** The run of the locked queue that a run of the client stands for. */
  ghost function LockedRun(s: State, es: seq<Event>): seq<L.Event<Message>>
    requires Q.Shaped(s.queue) && Legal(s, es)
    decreases |es|
  {
    if es == [] then []
    else StepOperation(s, es[0]) + LockedRun(Apply(s, es[0]), es[1..])
  }

  lemma {:induction false} MatchRun(s: State, es: seq<Event>, l: L.State<Message>)
    requires Inv(s) && Legal(s, es) && Matches(s.queue, l)
    ensures L.Legal(l, LockedRun(s, es)) && Matches(Exec(s, es).queue, L.Exec(l, LockedRun(s, es)))
    decreases |es|
  {
    if es != [] {
      var e := es[0];
      StepKeepsInv(s, e);
      if MovesQueue(e) {
        var op := Operation(s.queue, QueueEvent(s, e));
        MatchStep(s.queue, QueueEvent(s, e), l);
        MatchRun(Apply(s, e), es[1..], L.Exec(l, op));
        L.Concat(l, op, LockedRun(Apply(s, e), es[1..]));
      } else {
        MatchRun(Apply(s, e), es[1..], l);
        assert LockedRun(s, es) == LockedRun(Apply(s, e), es[1..]);
      }
    }
  }

  /** Longer runs stand for longer runs. */
  lemma {:induction false} LockedRunExtends(s: State, es: seq<Event>, more: seq<Event>)
    requires Q.Shaped(s.queue) && Legal(s, es) && Legal(Exec(s, es), more) && Legal(s, es + more)
    ensures LockedRun(s, es + more) == LockedRun(s, es) + LockedRun(Exec(s, es), more)
    decreases |es|
  {
    if es == [] {
      assert es + more == more;
    } else {
      var e, t := es[0], Apply(s, es[0]);
      assert (es + more)[1..] == es[1..] + more;
      LockedRunExtends(t, es[1..], more);
      assert LockedRun(s, es + more) == StepOperation(s, e) + LockedRun(t, es[1..] + more);
    }
  }

  /** The locked queue was fed with the messages not dropped, and has delivered and holds the same messages. */
  ghost predicate Mirrors(s: State, l: L.State<Message>) {
    && l.pushed == Keep(s.read[..Settled(s)], s.dropped)
    && Q.Fulls(l.delivered) == s.queue.popped
    && Q.Shaped(s.queue) && |s.queue.slots| == s.queue.cap
    && Q.Fulls(l.messages) == Q.RingContents(s.queue)
  }

  lemma MatchingMirrors(s: State, l: L.State<Message>)
    requires Inv(s) && Matches(s.queue, l)
    ensures Mirrors(s, l)
  {
    Q.RingHoldsTheRest(s.queue);
    RestOfFulls(s.queue, l.messages);
  }

  /**
   * The lock-free client simulates the locked queue.  At every point of every run the
   * locked run it stands for, one whole operation at each store of an index, is a run of
   * the locked queue whose state mirrors the client's; and going on with the client goes
   * on with that locked run, from where it was.
   */
  lemma LockFreeRefinesLocked(cap: nat, es: seq<Event>, more: seq<Event>)
    requires Q.GoodCapacity(cap) && Legal(Init(cap), es) && Legal(Exec(Init(cap), es), more)
    ensures Legal(Init(cap), es + more) && Exec(Init(cap), es + more) == Exec(Exec(Init(cap), es), more)
    ensures var ls, ls' := LockedRun(Init(cap), es), LockedRun(Exec(Init(cap), es), more);
      var l := L.Init<Message>();
      && LockedRun(Init(cap), es + more) == ls + ls'
      && L.Legal(l, ls) && Mirrors(Exec(Init(cap), es), L.Exec(l, ls))
      && L.Legal(L.Exec(l, ls), ls')
      && Mirrors(Exec(Exec(Init(cap), es), more), L.Exec(L.Exec(l, ls), ls'))
  {
    var s, l := Init(cap), L.Init<Message>();
    InitInv(cap);
    Concat(s, es, more);
    LockedRunExtends(s, es, more);
    MatchRun(s, es, l);
    ReachableInv(cap, es);
    var s', l' := Exec(s, es), L.Exec(l, LockedRun(s, es));
    MatchingMirrors(s', l');
    MatchRun(s', more, l');
    RunKeepsInv(s', more);
    MatchingMirrors(Exec(s', more), L.Exec(l', LockedRun(s', more)));
  }

  lemma RestOfFulls(c: Q.State<Message>, rest: seq<Message>)
    requires Q.Shaped(c) && |c.slots| == c.cap && |c.popped| <= |c.accepted|
    requires c.popped + Q.RingContents(c) == Q.Fulls(c.accepted) && rest == c.accepted[|c.popped|..]
    ensures Q.Fulls(rest) == Q.RingContents(c)
  {
    var ring := Q.RingContents(c);
    assert |ring| == |rest|;
    forall i | 0 <= i < |rest|
      ensures ring[i] == Q.Full(rest[i])
    {
      assert ring[i] == (c.popped + ring)[|c.popped| + i];
    }
  }

  /** With nothing dropped the locked queue is fed with exactly what the client has read. */
  lemma {:induction false} NothingDroppedKeepsAll(read: seq<Message>)
    ensures Keep(read, {}) == read
  {
    if read != [] {
      NothingDroppedKeepsAll(read[..|read| - 1]);
      assert read == read[..|read| - 1] + [read[|read| - 1]];
    }
  }

  /**
   * Reading the same stream, a lock-free client that drops nothing and a locked queue
   * deliver prefixes of that stream, tags included.
   */
  lemma BothDeliverPrefixes(cap: nat, es: seq<Event>, ls: seq<L.Event<Message>>, stream: seq<Message>)
    requires Q.GoodCapacity(cap) && Legal(Init(cap), es) && L.Legal(L.Init<Message>(), ls)
    requires Exec(Init(cap), es).dropped == {} && Exec(Init(cap), es).read <= stream
    requires L.Exec(L.Init<Message>(), ls).pushed <= stream
    ensures Exec(Init(cap), es).queue.popped <= Q.Fulls(stream)
    ensures L.Exec(L.Init<Message>(), ls).delivered <= stream
  {
    ReachableInv(cap, es);
    L.DeliveredThenQueuedIsPushed(ls);
    var s := Exec(Init(cap), es);
    NothingDroppedKeepsAll(s.read[..Settled(s)]);
  }
}

/**
 * The benchmarks against an in-order echo peer: the peer's stream is what it sends
 * unasked, followed by every message written to it, in order.
 *
 * Runs come in two kinds: with `exact` index loads the receiver always sees the latest
 * head_; otherwise it may see any coherent store, as in the ring-buffer model.
 */
module EchoBench {
  import Q = SpscModel
  import opened ClientModel
  import opened ReceiveRefinement

  datatype Echo = Echo(client: State, welcome: seq<Message>, writes: seq<Message>)

  datatype Action = Send(m: Message) | Client(e: Event)

  function Stream(x: Echo): seq<Message> {
    x.welcome + x.writes
  }

  /** The pops that the receiver is sure to know of at its next load of head_. */
  function KnownPops(x: Echo, exact: bool): nat {
    if exact then |x.client.queue.popped| else x.client.queue.seenHead
  }

  /** Messages of the stream not known to be popped: on the wire, in flight or queued. */
  function Outstanding(x: Echo, exact: bool): int {
    |x.welcome| + |x.writes| - KnownPops(x, exact)
  }

  predicate Possible(x: Echo, a: Action, exact: bool)
    requires Q.Shaped(x.client.queue)
  {
    match a
    case Send(_) => true
    case Client(e) =>
      && Enabled(x.client, e)
      && (e.Read? ==> |x.client.read| < |Stream(x)| && e.m == Stream(x)[|x.client.read|])
      && (e.Produce? && exact ==> e.at == x.client.queue.Pops())
  }

  function Do(x: Echo, a: Action): (x': Echo)
    requires Q.Shaped(x.client.queue) && Possible(x, a, false)
    ensures Q.Shaped(x'.client.queue)
  {
    match a
    case Send(m) => x.(writes := x.writes + [m])
    case Client(e) => x.(client := Apply(x.client, e))
  }

  ghost predicate Legal(x: Echo, run: seq<Action>, exact: bool)
    requires Q.Shaped(x.client.queue)
    decreases |run|
  {
    run == [] || (Possible(x, run[0], exact) && Legal(Do(x, run[0]), run[1..], exact))
  }

  ghost function Exec(x: Echo, run: seq<Action>, exact: bool): Echo
    requires Q.Shaped(x.client.queue) && Legal(x, run, exact)
    decreases |run|
  {
    if run == [] then x else Exec(Do(x, run[0]), run[1..], exact)
  }

  /** Nothing refused so far, and the client has read a prefix of the stream. */
  ghost predicate Intact(x: Echo) {
    Inv(x.client) && x.client.dropped == {} && x.client.read <= Stream(x)
  }

  /** Replies come in stream order: the i-th message popped is the i-th of the stream. */
  lemma RepliesInOrder(x: Echo, i: nat)
    requires Intact(x) && i < |x.client.queue.popped|
    ensures i < |Stream(x)| && x.client.queue.popped[i] == Q.Full(Stream(x)[i])
  {
    NothingDroppedKeepsAll(x.client.read[..Settled(x.client)]);
  }

  /** No push is refused while fewer than a full ring's worth of messages is outstanding. */
  lemma StepKeepsIntact(x: Echo, a: Action, exact: bool)
    requires Intact(x) && Possible(x, a, exact) && Outstanding(x, exact) < x.client.queue.cap
    ensures Intact(Do(x, a)) && Do(x, a).client.queue.cap == x.client.queue.cap
    ensures Outstanding(Do(x, a), exact) <= Outstanding(x, exact) + if a.Send? then 1 else 0
  {
    match a
    case Send(m) =>
      assert Stream(Do(x, a)) == Stream(x) + [m];
    case Client(e) =>
      StepKeepsInv(x.client, e);
      KnownPopsGrow(x, e, exact);
      if e.Produce? {
        NotRefused(x, e.at);
      }
  }

  lemma KnownPopsGrow(x: Echo, e: Event, exact: bool)
    requires Intact(x) && Enabled(x.client, e)
    ensures Apply(x.client, e).queue.cap == x.client.queue.cap
    ensures KnownPops(x.(client := Apply(x.client, e)), exact) >= KnownPops(x, exact)
  {}

  /** A push is not refused if the view of head_ shows fewer than a full ring's worth of the stream. */
  lemma NotRefused(x: Echo, at: nat)
    requires Intact(x) && Enabled(x.client, Produce(at))
    requires x.client.queue.producer.PLoadedTail? ==> |Stream(x)| < at + x.client.queue.cap
    ensures Apply(x.client, Produce(at)).dropped == {}
  {
    var s := x.client;
    ReadLags(x);
    if s.queue.producer.PLoadedTail? {
      Q.FullTestIsExact(s.queue, at);
    }
  }

  ghost function Sends(run: seq<Action>): nat {
    if run == [] then 0 else (if run[0].Send? then 1 else 0) + Sends(run[1..])
  }

  /**
   * Burst mode: with `q` messages outstanding, a burst of `n` is delivered without a
   * refused push in every interleaving, provided `q + n` fits in the ring.  With exact
   * loads `q` counts the messages not yet popped; with any coherent loads it counts
   * those not known to the receiver to be popped.
   */
  lemma {:induction false} BurstIsNotRefused(x: Echo, run: seq<Action>, exact: bool)
    requires Intact(x) && Legal(x, run, exact)
    requires Outstanding(x, exact) + Sends(run) <= x.client.queue.cap - 1
    ensures Intact(Exec(x, run, exact))
    decreases |run|
  {
    if run != [] {
      StepKeepsIntact(x, run[0], exact);
      BurstIsNotRefused(Do(x, run[0]), run[1..], exact);
    }
  }

  /** The receiver thread is in its loop. */
  predicate Receiving(s: State) {
    s.receiver.Checking? || s.receiver.Reading? || s.receiver.HasRead? || s.receiver.Pushing?
  }

  /** What the receiver does next if nothing goes wrong. */
  function NextReceive(x: Echo): Event
    requires Receiving(x.client) && (x.client.receiver.Reading? ==> |x.client.read| < |Stream(x)|)
    requires Q.Shaped(x.client.queue)
  {
    match x.client.receiver
    case Checking => LoadRunning(true)
    case Reading => Read(Stream(x)[|x.client.read|])
    case HasRead(_) => BeginPush
    case _ => Produce(x.client.queue.Pops())
  }

  /** Steps of the receiver until its next read. */
  function StepsToRead(s: State): nat {
    match s.receiver
    case HasRead(_) => 5
    case Pushing => (match s.queue.producer case PLoadedTail(_, _) => 4 case PReady(_, _, _) => 3 case _ => 2)
    case Checking => 1
    case _ => 0
  }

  lemma ReceiveIsPossible(x: Echo)
    requires Intact(x) && Receiving(x.client) && Outstanding(x, true) >= x.client.queue.cap
    ensures x.client.receiver.Reading? ==> |x.client.read| < |Stream(x)|
    ensures Possible(x, Client(NextReceive(x)), true)
  {
    ReadLags(x);
  }

  /** What has been read and decided is what has been accepted, and the ring bounds it. */
  lemma ReadLags(x: Echo)
    requires Intact(x)
    ensures Settled(x.client) == |x.client.queue.accepted| < |x.client.queue.popped| + x.client.queue.cap
  {
    NothingDroppedKeepsAll(x.client.read[..Settled(x.client)]);
  }

  lemma ReceiveProgresses(x: Echo)
    requires Intact(x) && Receiving(x.client) && (x.client.receiver.Reading? ==> |x.client.read| < |Stream(x)|)
    requires Possible(x, Client(NextReceive(x)), true)
    ensures var s, t := x.client, Apply(x.client, NextReceive(x));
      && Receiving(t) && t.queue.cap == s.queue.cap && t.queue.popped == s.queue.popped
      && (if s.receiver.Reading? then t.read == s.read + [Stream(x)[|s.read|]]
          else t.read == s.read && StepsToRead(t) < StepsToRead(s))
  {}

  lemma ReceiveStep(x: Echo)
    requires Intact(x) && Receiving(x.client) && Outstanding(x, true) >= x.client.queue.cap
    ensures x.client.receiver.Reading? ==> |x.client.read| < |Stream(x)|
    ensures Possible(x, Client(NextReceive(x)), true)
    ensures var y := Do(x, Client(NextReceive(x)));
      && Receiving(y.client) && Outstanding(y, true) == Outstanding(x, true) && y.client.queue.cap == x.client.queue.cap
      && Stream(y) == Stream(x) && |y.client.read| >= |x.client.read|
      && (|y.client.read| == |x.client.read| ==> StepsToRead(y.client) < StepsToRead(x.client))
      && (y.client.dropped == {} ==> Intact(y))
  {
    ReceiveIsPossible(x);
    ReceiveProgresses(x);
    StepKeepsInv(x.client, NextReceive(x));
  }

  /** More messages than the ring takes are refused in some run: the one where nobody pops. */
  lemma {:induction false} DriveToDrop(x: Echo) returns (run: seq<Action>)
    requires Intact(x) && Receiving(x.client) && Outstanding(x, true) >= x.client.queue.cap
    ensures Legal(x, run, true) && Sends(run) == 0 && Exec(x, run, true).client.dropped != {}
    decreases |Stream(x)| - |x.client.read|, StepsToRead(x.client)
  {
    ReceiveStep(x);
    var a := Client(NextReceive(x));
    var y := Do(x, a);
    var rest := [];
    if y.client.dropped == {} {
      rest := DriveToDrop(y);
    } else {
      assert Exec(y, [], true) == y;
    }
    run := [a] + rest;
    assert run[1..] == rest;
  }

  lemma {:induction false} RefusedRun(x: Echo, n: nat, m: Message) returns (run: seq<Action>)
    requires Intact(x) && Receiving(x.client) && Outstanding(x, true) + n >= x.client.queue.cap
    ensures Legal(x, run, true) && Sends(run) <= n && Exec(x, run, true).client.dropped != {}
    decreases n
  {
    if n == 0 {
      run := DriveToDrop(x);
    } else {
      var y := Do(x, Send(m));
      assert Stream(y) == Stream(x) + [m];
      var rest := RefusedRun(y, n - 1, m);
      run := [Send(m)] + rest;
      assert run[1..] == rest;
    }
  }

  /** The bound is exact: some run with `n` messages sent has a refused push iff `q + n` exceeds the ring. */
  lemma BurstBoundIsExact(x: Echo, n: nat, m: Message)
    requires Intact(x) && Receiving(x.client)
    ensures (exists run :: Legal(x, run, true) && Sends(run) <= n && Exec(x, run, true).client.dropped != {})
      <==> Outstanding(x, true) + n > x.client.queue.cap - 1
  {
    if Outstanding(x, true) + n > x.client.queue.cap - 1 {
      var run := RefusedRun(x, n, m);
      assert Legal(x, run, true);
    } else {
      forall run | Legal(x, run, true) && Sends(run) <= n
        ensures Exec(x, run, true).client.dropped == {}
      {
        BurstIsNotRefused(x, run, true);
      }
    }
  }

  /** A load of head_ is at most `lag` pops behind. */
  predicate LagsAtMost(x: Echo, a: Action, lag: nat)
    requires Q.Shaped(x.client.queue)
  {
    a.Client? && a.e.Produce? && x.client.queue.producer.PLoadedTail? ==> x.client.queue.Pops() <= a.e.at + lag
  }

  /**
   * Send-then-receive mode: a message is sent only after the replies to all earlier ones.
   * The loads of head_ are coherent and at most `lag` pops behind.
   */
  ghost predicate Sequential(x: Echo, run: seq<Action>, lag: nat)
    requires Q.Shaped(x.client.queue) && Legal(x, run, false)
    decreases |run|
  {
    run != [] ==>
      && (run[0].Send? ==> |x.writes| <= |x.client.queue.popped|)
      && LagsAtMost(x, run[0], lag)
      && Sequential(Do(x, run[0]), run[1..], lag)
  }

  lemma SequentialStep(x: Echo, a: Action, lag: nat)
    requires Intact(x) && Possible(x, a, false) && LagsAtMost(x, a, lag)
    requires a.Send? ==> |x.writes| <= |x.client.queue.popped|
    requires Outstanding(x, true) <= |x.welcome| + 1 && |x.welcome| + 1 + lag < x.client.queue.cap
    ensures Intact(Do(x, a)) && Do(x, a).client.queue.cap == x.client.queue.cap
    ensures Outstanding(Do(x, a), true) <= |x.welcome| + 1
  {
    match a
    case Send(m) =>
      assert Stream(Do(x, a)) == Stream(x) + [m];
    case Client(e) =>
      StepKeepsInv(x.client, e);
      KnownPopsGrow(x, e, true);
      if e.Produce? {
        NotRefused(x, e.at);
      }
  }

  /**
   * In send-then-receive mode no push is refused if the ring has room for the unsolicited
   * messages, one more, and as many as the view of head_ can lag behind; the replies are
   * then the unsolicited messages followed by the messages sent.
   */
  lemma {:induction false} SequentialIsNotRefused(x: Echo, run: seq<Action>, lag: nat)
    requires Intact(x) && Legal(x, run, false) && Sequential(x, run, lag)
    requires Outstanding(x, true) <= |x.welcome| + 1 && |x.welcome| + 1 + lag < x.client.queue.cap
    ensures Intact(Exec(x, run, false))
    decreases |run|
  {
    if run != [] {
      SequentialStep(x, run[0], lag);
      SequentialIsNotRefused(Do(x, run[0]), run[1..], lag);
    }
  }

  /** The benchmark's own start: a fresh client and nothing written yet. */
  lemma StartIsIntact(cap: nat, welcome: seq<Message>, exact: bool)
    requires Q.GoodCapacity(cap)
    ensures var x := Echo(Init(cap), welcome, []); Intact(x) && Outstanding(x, exact) == |welcome|
  {
    InitInv(cap);
  }
}

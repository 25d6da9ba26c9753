/**
 * The loops of the receive path as sequential code over the queue object.
 */
module ReceivePath {
  import opened Bits
  import opened ClientModel
  import opened SpscQueue

  /** What a round of the receiver loop meets: a message, a failed read, or the run flag cleared. */
  datatype Incoming = Arrived(m: Message) | Failed | FlagClear

  /** The messages before the loop ends. */
  function Arrivals(input: seq<Incoming>): seq<Message> {
    if input == [] || !input[0].Arrived? then [] else [input[0].m] + Arrivals(input[1..])
  }

  lemma {:induction false} NextArrival(input: seq<Incoming>, n: nat)
    requires n < |input| && forall i :: 0 <= i <= n ==> input[i].Arrived?
    ensures n < |Arrivals(input)| && Arrivals(input)[n] == input[n].m
  {
    if n > 0 {
      NextArrival(input[1..], n - 1);
    }
  }

  lemma {:induction false} ArrivalCount(input: seq<Incoming>, n: nat)
    requires n <= |input| && forall i :: 0 <= i < n ==> input[i].Arrived?
    requires n == |input| || !input[n].Arrived?
    ensures |Arrivals(input)| == n
  {
    if n > 0 {
      ArrivalCount(input[1..], n - 1);
    }
  }

  /**
   * The receiver loop with nobody consuming: it reads until a read fails or the run flag
   * is found clear, queues messages in order until the ring holds capacity - 1, and drops the rest.
   */
  method ReceiveLoop(queue: Queue<Message>, input: seq<Incoming>) returns (dropped: nat)
    requires queue.Valid()
    modifies queue, queue.buffer
    ensures queue.Valid() && |old(queue.Contents())| < queue.capacity
    ensures var all, room := Arrivals(input), queue.capacity - 1 - |old(queue.Contents())|;
      && queue.Contents() == old(queue.Contents()) + all[..Min(|all|, room)]
      && dropped == |all| - Min(|all|, room)
  {
    dropped := 0;
    var i := 0;
    ghost var before, all := queue.Contents(), Arrivals(input);
    ghost var room := queue.capacity - 1 - |before|;
    while i < |input| && input[i].Arrived?
      invariant 0 <= i <= |input| && i <= |all| && queue.Valid() && room >= 0
      invariant forall k :: 0 <= k < i ==> input[k].Arrived?
      invariant queue.Contents() == Queued(before, all, i, room)
      invariant dropped == i - Min(i, room)
    {
      NextArrival(input, i);
      QueueOneMore(before, all, i, room);
      var ok := queue.TryPush(input[i].m);
      if !ok {
        dropped := dropped + 1;
      }
      i := i + 1;
    }
    ArrivalCount(input, i);
  }

  /** What is held after `i` arrivals, with room for `room` of them. */
  function Queued(before: seq<Message>, all: seq<Message>, i: nat, room: nat): seq<Message>
    requires i <= |all|
  {
    before + all[..Min(i, room)]
  }

  lemma QueueOneMore(before: seq<Message>, all: seq<Message>, i: nat, room: nat)
    requires i < |all|
    ensures |Queued(before, all, i, room)| == |before| + Min(i, room)
    ensures Queued(before, all, i + 1, room) ==
      Queued(before, all, i, room) + if i < room then [all[i]] else []
  {
    assert all[..i + 1] == all[..i] + [all[i]];
  }

  /** All messages that arrive before the polls of `rounds`. */
  function AllArrivals(rounds: seq<seq<Incoming>>): seq<Message> {
    if rounds == [] then [] else AllArrivals(rounds[..|rounds| - 1]) + Arrivals(rounds[|rounds| - 1])
  }

  lemma {:induction false} NextRound(rounds: seq<seq<Incoming>>, n: nat)
    requires n < |rounds|
    ensures AllArrivals(rounds[..n + 1]) == AllArrivals(rounds[..n]) + Arrivals(rounds[n])
    ensures |AllArrivals(rounds[..n + 1])| <= |AllArrivals(rounds)|
    decreases |rounds|
  {
    assert rounds[..n + 1][..n] == rounds[..n];
    var front := rounds[..|rounds| - 1];
    if n < |front| {
      assert front[..n] == rounds[..n] && front[..n + 1] == rounds[..n + 1];
      NextRound(front, n);
    } else {
      assert rounds == rounds[..n + 1];
    }
  }

  /** One poll, after the receiver has met `input`: nothing, or the oldest message. */
  method Poll(queue: Queue<Message>, input: seq<Incoming>) returns (found: seq<Message>, lost: nat)
    requires queue.Valid()
    modifies queue, queue.buffer
    ensures queue.Valid()
    ensures |found| <= 1 && (found == [] ==> old(queue.Contents()) == [] && queue.Contents() == [])
    ensures Balanced(old(queue.Contents()), Arrivals(input), found, queue.Contents(), lost)
    ensures |old(queue.Contents())| + |Arrivals(input)| < queue.capacity ==> lost == 0
  {
    ghost var before, all := queue.Contents(), Arrivals(input);
    lost := ReceiveLoop(queue, input);
    ghost var held := queue.Contents();
    WhatIsHeld(before, all, held, queue.capacity - 1 - |before|, lost);
    var r := queue.TryPop();
    found := if r.Some? then [r.value] else [];
    assert found + queue.Contents() == held;
    PopBalances(before, all, held, lost, found, queue.Contents());
  }

  /** What the receiver loop leaves is balanced. */
  lemma WhatIsHeld(before: seq<Message>, all: seq<Message>, held: seq<Message>, room: nat, lost: nat)
    requires held == before + all[..Min(|all|, room)] && lost == |all| - Min(|all|, room)
    ensures Balanced(before, all, [], held, lost)
    ensures |all| <= room ==> lost == 0
  {
    assert [] + held == held;
  }

  lemma PopBalances(before: seq<Message>, all: seq<Message>, held: seq<Message>, lost: nat,
                    found: seq<Message>, rest: seq<Message>)
    requires Balanced(before, all, [], held, lost) && found + rest == held
    ensures Balanced(before, all, found, rest, lost)
  {
    assert [] + held == held;
  }

  /** Received, held and dropped messages make up what there was and what came, in order if none is dropped. */
  ghost predicate Balanced(before: seq<Message>, came: seq<Message>, got: seq<Message>, held: seq<Message>,
                           dropped: nat) {
    && |got| + |held| + dropped == |before| + |came|
    && |got| + |held| >= |before|
    && (dropped == 0 ==> got + held == before + came)
  }

  lemma BalancedOn(before: seq<Message>, came: seq<Message>, got: seq<Message>, held: seq<Message>, dropped: nat,
                   more: seq<Message>, found: seq<Message>, held': seq<Message>, lost: nat)
    requires Balanced(before, came, got, held, dropped) && Balanced(held, more, found, held', lost)
    ensures Balanced(before, came + more, got + found, held', dropped + lost)
  {
    if dropped + lost == 0 {
      assert got + found + held' == got + (held + more) == got + held + more;
    }
  }

  /** Arrivals only add up. */
  lemma {:induction false} ArrivalsGrow(rounds: seq<seq<Incoming>>, r: nat, n: nat)
    requires r <= n <= |rounds|
    ensures |AllArrivals(rounds[..r])| <= |AllArrivals(rounds[..n])|
    decreases n - r
  {
    if r < n {
      NextRound(rounds, r);
      ArrivalsGrow(rounds, r + 1, n);
    }
  }

  /**
   * After `polls` polls: each poll since any earlier one has found a message, unless
   * everything that had come by then is received.
   */
  ghost predicate Prompt(rounds: seq<seq<Incoming>>, before: seq<Message>, polls: nat, got: seq<Message>)
    requires polls <= |rounds|
  {
    forall r: nat :: r <= polls ==> |got| >= Min(polls - r, |before| + |AllArrivals(rounds[..r])|)
  }

  /** With room for everything nothing is dropped; what was queued comes first, and with no drop all is prompt. */
  ghost predicate Advanced(rounds: seq<seq<Incoming>>, before: seq<Message>, polls: nat, got: seq<Message>,
                           dropped: nat, capacity: nat)
    requires polls <= |rounds|
  {
    && (|before| + |AllArrivals(rounds)| < capacity ==> dropped == 0)
    && |got| >= Min(polls, |before|)
    && (dropped == 0 ==> Prompt(rounds, before, polls, got))
  }

  lemma PollIsPrompt(rounds: seq<seq<Incoming>>, before: seq<Message>, polls: nat, got: seq<Message>,
                     found: seq<Message>)
    requires polls < |rounds| && Prompt(rounds, before, polls, got) && |found| <= 1
    requires found == [] ==> |got| == |before| + |AllArrivals(rounds[..polls + 1])|
    ensures Prompt(rounds, before, polls + 1, got + found)
  {
    forall r: nat | r <= polls + 1
      ensures |got + found| >= Min(polls + 1 - r, |before| + |AllArrivals(rounds[..r])|)
    {
      ArrivalsGrow(rounds, r, polls + 1);
    }
  }

  /** What one poll does to the books of the drain loop. */
  lemma PollAdvances(rounds: seq<seq<Incoming>>, before: seq<Message>, polls: nat, got: seq<Message>,
                     held: seq<Message>, dropped: nat, capacity: nat,
                     found: seq<Message>, held': seq<Message>, lost: nat)
    requires polls < |rounds|
    requires Balanced(before, AllArrivals(rounds[..polls]), got, held, dropped)
    requires Balanced(held, Arrivals(rounds[polls]), found, held', lost)
    requires |found| <= 1 && (found == [] ==> held == [] && held' == [])
    requires |held| + |Arrivals(rounds[polls])| < capacity ==> lost == 0
    requires Advanced(rounds, before, polls, got, dropped, capacity)
    ensures Balanced(before, AllArrivals(rounds[..polls + 1]), got + found, held', dropped + lost)
    ensures Advanced(rounds, before, polls + 1, got + found, dropped + lost, capacity)
  {
    NextRound(rounds, polls);
    BalancedOn(before, AllArrivals(rounds[..polls]), got, held, dropped, Arrivals(rounds[polls]), found, held', lost);
    if dropped + lost == 0 {
      PollIsPrompt(rounds, before, polls, got, found);
    }
  }

  /**
   * The drain loop of the throughput benchmark: it polls until it has the messages it
   * wants.  `rounds` says what the receiver meets before each poll; a poll may find
   * nothing.  The loop ends early only where `rounds` does, still waiting.
   */
  method Drain(queue: Queue<Message>, wanted: nat, rounds: seq<seq<Incoming>>)
    returns (messages: seq<Message>, polls: nat, dropped: nat)
    requires queue.Valid()
    modifies queue, queue.buffer
    ensures queue.Valid() && polls <= |rounds| && |messages| <= wanted
    ensures |messages| < wanted ==> polls == |rounds|
    ensures Balanced(old(queue.Contents()), AllArrivals(rounds[..polls]), messages, queue.Contents(), dropped)
    ensures Advanced(rounds, old(queue.Contents()), polls, messages, dropped, queue.capacity)
  {
    messages, polls, dropped := [], 0, 0;
    ghost var before := queue.Contents();
    while |messages| < wanted && polls < |rounds|
      invariant queue.Valid() && polls <= |rounds| && |messages| <= wanted
      invariant Balanced(before, AllArrivals(rounds[..polls]), messages, queue.Contents(), dropped)
      invariant Advanced(rounds, before, polls, messages, dropped, queue.capacity)
    {
      ghost var held := queue.Contents();
      var found, lost := Poll(queue, rounds[polls]);
      PollAdvances(rounds, before, polls, messages, held, dropped, queue.capacity, found, queue.Contents(), lost);
      messages, polls, dropped := messages + found, polls + 1, dropped + lost;
    }
  }
}

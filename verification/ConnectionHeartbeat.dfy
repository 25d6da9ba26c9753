/**
 * When the heartbeat pings, and when it does not.
 */
module ConnectionHeartbeat {
  import opened ConnectionModel
  import opened ConnectionResults

  /** The pings that a run sends. */
  ghost function PingsIn(s: State, es: seq<Event>): nat
    requires Legal(s, es)
    decreases |es|
  {
    if es == [] then 0
    else (if es[0].HeartbeatStep? && s.heartbeat.HSend? then 1 else 0) + PingsIn(Apply(s, es[0]), es[1..])
  }

  /** At no point of the run is the manager both running and Connected. */
  ghost predicate OffTheAir(s: State, es: seq<Event>)
    requires Legal(s, es)
    decreases |es|
  {
    !(s.run && s.state.Connected?) && (es != [] ==> OffTheAir(Apply(s, es[0]), es[1..]))
  }

  predicate PingAhead(s: State) {
    s.heartbeat.HTest? || s.heartbeat.HSend? || (s.run && (s.heartbeat.HSleep? || s.heartbeat.HRecheck?))
  }

  lemma PingStep(s: State, e: Event)
    requires Inv(s) && Enabled(s, e) && !(s.run && s.state.Connected?)
    ensures PingAhead(Apply(s, e)) ==> PingAhead(s) && !(e.HeartbeatStep? && s.heartbeat.HSend?)
  {}

  lemma {:induction false} PingsAreBounded(s: State, es: seq<Event>)
    requires Inv(s) && Legal(s, es) && OffTheAir(s, es)
    ensures PingsIn(s, es) <= if PingAhead(s) then 1 else 0
    decreases |es|
  {
    if es != [] {
      StepKeepsInv(s, es[0]);
      PingStep(s, es[0]);
      PingsAreBounded(Apply(s, es[0]), es[1..]);
    }
  }

  /** While the manager is not both running and Connected, at most one ping is sent. */
  lemma AtMostOnePingOffTheAir(config: Config, es: seq<Event>, more: seq<Event>)
    requires Legal(Init(config), es) && Legal(Exec(Init(config), es), more)
    requires OffTheAir(Exec(Init(config), es), more)
    ensures PingsIn(Exec(Init(config), es), more) <= 1
  {
    ReachableInv(config, es);
    PingsAreBounded(Exec(Init(config), es), more);
  }

  // ---- Only live clients are pinged ----

  /** At no point of the run is there a live client. */
  ghost predicate NoLiveClient(s: State, es: seq<Event>)
    requires Legal(s, es)
    decreases |es|
  {
    s.client != Client(true) && (es != [] ==> NoLiveClient(Apply(s, es[0]), es[1..]))
  }

  lemma DeadClientStep(s: State, e: Event)
    requires Enabled(s, e) && s.client != Client(true)
    ensures Apply(s, e).heartbeat.HSend? ==> s.heartbeat.HSend? && !e.HeartbeatStep?
  {
    match e
    case OwnerStep(ok) => OwnerStartsNoPing(s, ok);
    case WorkerStep(who, ok) => WorkerStartsNoPing(s, who, ok);
    case _ =>
  }

  lemma OwnerStartsNoPing(s: State, ok: bool)
    ensures OwnerNext(s, ok).heartbeat.HSend? ==> s.heartbeat.HSend?
  {}

  lemma WorkerStartsNoPing(s: State, who: Who, ok: bool)
    ensures WorkerNext(s, who, ok).heartbeat.HSend? ==> s.heartbeat.HSend?
  {}

  /** While no client is live nothing is pinged, but for a ping already past its test. */
  lemma {:induction false} DeadClientIsNotPinged(s: State, es: seq<Event>)
    requires Legal(s, es) && NoLiveClient(s, es)
    ensures PingsIn(s, es) <= if s.heartbeat.HSend? then 1 else 0
    decreases |es|
  {
    if es != [] {
      DeadClientStep(s, es[0]);
      DeadClientIsNotPinged(Apply(s, es[0]), es[1..]);
    }
  }

  // ---- A live connection is pinged regularly ----

  /** At every point the manager is running and Connected with a live client, and no ping fails. */
  ghost predicate OnTheAir(s: State, es: seq<Event>)
    requires Legal(s, es)
    decreases |es|
  {
    && s.run && s.state.Connected? && s.client == Client(true)
    && (es != [] ==>
        && (s.heartbeat.HSend? && es[0].HeartbeatStep? ==> es[0].ok)
        && OnTheAir(Apply(s, es[0]), es[1..]))
  }

  predicate Beating(h: Heartbeat) {
    !h.HAbsent? && !h.HDone?
  }

  /** Heartbeat steps up to and with the next ping. */
  function ToPing(h: Heartbeat): nat {
    match h
    case HCheckRun => 6
    case HCheckState => 5
    case HSleep => 4
    case HRecheck => 3
    case HTest => 2
    case HSend => 1
    case _ => 0
  }

  ghost function HeartbeatSteps(es: seq<Event>): nat {
    if es == [] then 0 else (if es[0].HeartbeatStep? then 1 else 0) + HeartbeatSteps(es[1..])
  }

  lemma OthersLeaveHeartbeat(s: State, e: Event)
    requires ThreadsFit(s) && Enabled(s, e) && Beating(s.heartbeat) && s.run && !e.HeartbeatStep?
    ensures Apply(s, e).heartbeat == s.heartbeat
  {
    match e
    case OwnerStep(_) => OwnerLeavesHeartbeat(s);
    case WorkerStep(who, ok) => WorkerLeavesHeartbeat(s, who, ok);
    case _ =>
  }

  lemma OwnerLeavesHeartbeat(s: State)
    requires ThreadsFit(s) && Beating(s.heartbeat)
    ensures OwnerThreads(s).heartbeat == s.heartbeat
  {}

  lemma WorkerLeavesHeartbeat(s: State, who: Who, ok: bool)
    requires ThreadsFit(s) && Beating(s.heartbeat)
    ensures WorkerNext(s, who, ok).heartbeat == s.heartbeat
  {}

  /** On a live connection the heartbeat never ends and pings with exactly every sixth of its steps. */
  lemma {:induction false} LiveConnectionIsPinged(s: State, es: seq<Event>)
    requires Inv(s) && Legal(s, es) && OnTheAir(s, es) && Beating(s.heartbeat)
    ensures Beating(Exec(s, es).heartbeat)
    ensures HeartbeatSteps(es) + ToPing(Exec(s, es).heartbeat) == 6 * PingsIn(s, es) + ToPing(s.heartbeat)
    decreases |es|
  {
    if es != [] {
      StepKeepsInv(s, es[0]);
      if !es[0].HeartbeatStep? {
        OthersLeaveHeartbeat(s, es[0]);
      }
      LiveConnectionIsPinged(Apply(s, es[0]), es[1..]);
    }
  }

  // ---- A failed ping is the last one ----

  /** Without a new heartbeat only its own steps move the heartbeat. */
  lemma OnlyItsOwnSteps(s: State, e: Event)
    requires Enabled(s, e)
    ensures Apply(s, e).heartbeats >= s.heartbeats
    ensures Apply(s, e).heartbeats == s.heartbeats && !e.HeartbeatStep? ==> Apply(s, e).heartbeat == s.heartbeat
  {
    match e
    case OwnerStep(ok) => OwnerKeepsHeartbeatThread(s, ok);
    case WorkerStep(who, ok) => WorkerKeepsHeartbeatThread(s, who, ok);
    case _ =>
  }

  lemma OwnerKeepsHeartbeatThread(s: State, ok: bool)
    ensures var t := OwnerNext(s, ok);
      t.heartbeats >= s.heartbeats && (t.heartbeats == s.heartbeats ==> t.heartbeat == s.heartbeat)
  {}

  lemma WorkerKeepsHeartbeatThread(s: State, who: Who, ok: bool)
    ensures var t := WorkerNext(s, who, ok);
      t.heartbeats >= s.heartbeats && (t.heartbeats == s.heartbeats ==> t.heartbeat == s.heartbeat)
  {}

  lemma {:induction false} HeartbeatsOnlyGrow(s: State, es: seq<Event>)
    requires Legal(s, es)
    ensures Exec(s, es).heartbeats >= s.heartbeats
    decreases |es|
  {
    if es != [] {
      OnlyItsOwnSteps(s, es[0]);
      HeartbeatsOnlyGrow(Apply(s, es[0]), es[1..]);
    }
  }

  lemma {:induction false} FinishedStaysSilent(s: State, es: seq<Event>)
    requires Legal(s, es) && s.heartbeat.HDone? && Exec(s, es).heartbeats == s.heartbeats
    ensures PingsIn(s, es) == 0 && Exec(s, es).heartbeat.HDone?
    decreases |es|
  {
    if es != [] {
      OnlyItsOwnSteps(s, es[0]);
      HeartbeatsOnlyGrow(Apply(s, es[0]), es[1..]);
      FinishedStaysSilent(Apply(s, es[0]), es[1..]);
    }
  }

  /** After a ping that fails there is none until another heartbeat is created. */
  lemma FailedPingIsTheLast(s: State, es: seq<Event>)
    requires Enabled(s, HeartbeatStep(false)) && s.heartbeat.HSend?
    requires Legal(Apply(s, HeartbeatStep(false)), es)
    requires Exec(Apply(s, HeartbeatStep(false)), es).heartbeats == s.heartbeats
    ensures PingsIn(Apply(s, HeartbeatStep(false)), es) == 0
  {
    FinishedStaysSilent(Apply(s, HeartbeatStep(false)), es);
  }

  // ---- The heartbeat ends with the connection ----

  /**
   * Heartbeat steps that are left, at most, off the air.  A late Connected, stored after
   * the run flag is cleared, can take a heartbeat past its test of the state once more.
   */
  function StepsOffTheAir(h: Heartbeat, run: bool): nat {
    if !run then HeartbeatRank(h)
    else
      match h
      case HCheckState => 3
      case HCheckRun => 4
      case HSend => 5
      case HTest => 6
      case HRecheck => 7
      case HSleep => 8
      case _ => 0
  }

  lemma OffTheAirStep(s: State, e: Event)
    requires ThreadsFit(s) && Enabled(s, e) && !(s.run && s.state.Connected?)
    requires Apply(s, e).heartbeats == s.heartbeats
    ensures var t := Apply(s, e);
      StepsOffTheAir(t.heartbeat, t.run) + (if e.HeartbeatStep? then 1 else 0) <= StepsOffTheAir(s.heartbeat, s.run)
  {
    OnlyItsOwnSteps(s, e);
    match e
    case OwnerStep(ok) => OwnerLeavesFlagOrClearsIt(s, ok);
    case WorkerStep(who, ok) => WorkerLeavesFlag(s, who, ok);
    case _ =>
  }

  lemma OwnerLeavesFlagOrClearsIt(s: State, ok: bool)
    requires ThreadsFit(s)
    ensures OwnerNext(s, ok).run ==> s.run || s.heartbeat.HAbsent?
  {}

  lemma WorkerLeavesFlag(s: State, who: Who, ok: bool)
    ensures WorkerNext(s, who, ok).run == s.run
  {}

  /** While the manager is not both running and Connected, the heartbeat ends within eight of its steps. */
  lemma {:induction false} HeartbeatEndsOffTheAir(s: State, es: seq<Event>)
    requires Inv(s) && Legal(s, es) && OffTheAir(s, es) && Exec(s, es).heartbeats == s.heartbeats
    ensures var t := Exec(s, es);
      HeartbeatSteps(es) + StepsOffTheAir(t.heartbeat, t.run) <= StepsOffTheAir(s.heartbeat, s.run) <= 8
    decreases |es|
  {
    if es != [] {
      StepKeepsInv(s, es[0]);
      OnlyItsOwnSteps(s, es[0]);
      HeartbeatsOnlyGrow(Apply(s, es[0]), es[1..]);
      OffTheAirStep(s, es[0]);
      HeartbeatEndsOffTheAir(Apply(s, es[0]), es[1..]);
    }
  }

  /** Heartbeat steps that are left, at most, without a live client. */
  function StepsWithoutClient(h: Heartbeat): nat {
    match h
    case HTest => 1
    case HRecheck => 2
    case HSleep => 3
    case HCheckState => 4
    case HCheckRun => 5
    case HSend => 6
    case _ => 0
  }

  /** While no client is live it ends within six of its steps. */
  lemma {:induction false} HeartbeatEndsWithoutClient(s: State, es: seq<Event>)
    requires Legal(s, es) && NoLiveClient(s, es) && Exec(s, es).heartbeats == s.heartbeats
    ensures HeartbeatSteps(es) + StepsWithoutClient(Exec(s, es).heartbeat) <= StepsWithoutClient(s.heartbeat) <= 6
    decreases |es|
  {
    if es != [] {
      OnlyItsOwnSteps(s, es[0]);
      HeartbeatsOnlyGrow(Apply(s, es[0]), es[1..]);
      HeartbeatEndsWithoutClient(Apply(s, es[0]), es[1..]);
    }
  }
}

/**
 * Threads created under `stop`: exactly when a second heartbeat appears, and exactly when
 * `stop` returns with a handle still joinable.
 */
module ConnectionHandles {
  import opened ConnectionModel
  import opened ConnectionResults
  import opened ConnectionStop

  /**
   * Before `stop` has joined the heartbeat a run creates at most one, afterwards at most
   * one more.
   */
  lemma AtMostTwoHeartbeats(config: Config, es: seq<Event>)
    requires Legal(Init(config), es)
    ensures var s := Exec(Init(config), es);
      && s.heartbeats <= (if PastHeartbeatJoin(s.owner) then 2 else 1)
      && (s.heartbeats > 0 ==> config.heartbeat)
  {
    ReachableInv(config, es);
    RunKeepsConfig(Init(config), es);
  }

  /** A retry will come to, or is at, its test of the heartbeat handle if its attempt succeeds. */
  predicate HeartbeatAhead(s: State) {
    AttemptAhead(s) || Active(s).LCallback? || Active(s).LConnected? || Active(s).LZero? || Active(s).LHeartbeat?
  }

  /** The same for the test of the monitor handle, with no monitor created yet. */
  predicate MonitorAhead(s: State) {
    s.monitor.Absent? && (HeartbeatAhead(s) || s.reconnect.LMonitor?)
  }

  /** A continuation that creates a second heartbeat. */
  ghost predicate CreatesSecondHeartbeat(s: State, more: seq<Event>) {
    Legal(s, more) && Exec(s, more).heartbeats == 2
  }

  predicate AnyJoinable(s: State) {
    s.heartbeatJoinable || s.monitorJoinable || s.reconnectJoinable
  }

  /** A continuation in which `stop` returns with a joinable handle. */
  ghost predicate LeavesJoinable(s: State, more: seq<Event>) {
    Legal(s, more) && Exec(s, more).owner.Stopped? && AnyJoinable(Exec(s, more))
  }

  // ---- Without a retry ahead nothing new is created ----

  /** Once the flag is cleared nothing new is ahead after a worker step, and the test itself is then behind. */
  lemma AheadComesNoCloser(s: State, who: Who, ok: bool)
    requires ThreadsFit(s) && Enabled(s, WorkerStep(who, ok)) && FlagCleared(s)
    ensures var t := WorkerNext(s, who, ok);
      && (HeartbeatAhead(t) ==> HeartbeatAhead(s) && !Active(s).LHeartbeat?)
      && (MonitorAhead(t) ==> MonitorAhead(s))
  {
    OnlyActiveMoves(s, who, ok);
    WorkerKeepsMonitor(s, who, ok);
  }

  function HeartbeatsToCome(s: State): nat {
    s.heartbeats + if HeartbeatAhead(s) then 1 else 0
  }

  lemma HeartbeatBudgetStep(s: State, e: Event)
    requires Inv(s) && Enabled(s, e) && FlagCleared(s)
    ensures HeartbeatsToCome(Apply(s, e)) <= HeartbeatsToCome(s)
  {
    match e
    case WorkerStep(who, ok) => HeartbeatBudgetWorker(s, who, ok);
    case OwnerStep(ok) => OwnerKeepsRetry(s, ok);
    case _ =>
  }

  /** Once the flag is cleared the owner creates nothing and disturbs no retry. */
  lemma OwnerKeepsRetry(s: State, ok: bool)
    requires ThreadsFit(s) && Enabled(s, OwnerStep(ok)) && FlagCleared(s)
    ensures var t := OwnerNext(s, ok);
      && t.config == s.config && t.count == s.count && t.monitor == s.monitor && t.reconnect == s.reconnect
      && t.heartbeats == s.heartbeats
  {}

  lemma HeartbeatBudgetWorker(s: State, who: Who, ok: bool)
    requires Inv(s) && Enabled(s, WorkerStep(who, ok)) && FlagCleared(s)
    ensures HeartbeatsToCome(WorkerNext(s, who, ok)) <= HeartbeatsToCome(s)
  {
    OnlyActiveMoves(s, who, ok);
    AheadComesNoCloser(s, who, ok);
  }

  lemma {:induction false} HeartbeatBudget(s: State, es: seq<Event>)
    requires Inv(s) && Legal(s, es) && FlagCleared(s)
    ensures HeartbeatsToCome(Exec(s, es)) <= HeartbeatsToCome(s)
    decreases |es|
  {
    if es != [] {
      StepKeepsInv(s, es[0]);
      FlagStaysCleared(s, es[0]);
      HeartbeatBudgetStep(s, es[0]);
      HeartbeatBudget(Apply(s, es[0]), es[1..]);
    }
  }

  /** `stop` has joined the monitor. */
  predicate PastMonitorJoin(o: Owner) {
    o.JoinReconnect? || o.StopClosed? || o.Stopped?
  }

  /** No thread will be created whose handle `stop` has joined. */
  predicate Tidy(s: State) {
    && FlagCleared(s)
    && !(s.config.heartbeat && HeartbeatAhead(s)) && !MonitorAhead(s)
    && (PastHeartbeatJoin(s.owner) ==> !s.heartbeatJoinable)
    && (PastMonitorJoin(s.owner) ==> !s.monitorJoinable)
  }

  lemma TidyStep(s: State, e: Event)
    requires Inv(s) && Enabled(s, e) && Tidy(s)
    ensures Tidy(Apply(s, e))
  {
    FlagStaysCleared(s, e);
    match e
    case WorkerStep(who, ok) => TidyWorkerStep(s, who, ok);
    case OwnerStep(ok) => TidyOwnerStep(s, ok);
    case _ =>
  }

  lemma TidyOwnerStep(s: State, ok: bool)
    requires ThreadsFit(s) && Enabled(s, OwnerStep(ok)) && Tidy(s) && FlagCleared(OwnerNext(s, ok))
    ensures Tidy(OwnerNext(s, ok))
  {
    OwnerKeepsRetry(s, ok);
  }

  lemma TidyWorkerStep(s: State, who: Who, ok: bool)
    requires ThreadsFit(s) && Enabled(s, WorkerStep(who, ok)) && Tidy(s)
    requires FlagCleared(WorkerNext(s, who, ok))
    ensures Tidy(WorkerNext(s, who, ok))
  {
    OnlyActiveMoves(s, who, ok);
    AheadComesNoCloser(s, who, ok);
  }

  lemma {:induction false} TidyStays(s: State, es: seq<Event>)
    requires Inv(s) && Legal(s, es) && Tidy(s)
    ensures Tidy(Exec(s, es)) && Inv(Exec(s, es))
    decreases |es|
  {
    if es != [] {
      StepKeepsInv(s, es[0]);
      TidyStep(s, es[0]);
      TidyStays(Apply(s, es[0]), es[1..]);
    }
  }

  // ---- A retry ahead can create threads that `stop` no longer joins ----

  /** The heartbeat, if any, ends and is joined before anyone else moves. */
  lemma {:induction false} PassHeartbeatJoin(s: State) returns (es: seq<Event>)
    requires Inv(s) && (s.owner.StopClient? || s.owner.JoinHeartbeat?)
    ensures Legal(s, es)
    ensures var t := Exec(s, es);
      && Inv(t) && t.owner.JoinMonitor? && !t.heartbeatJoinable
      && SameRetry(s, t) && t.heartbeats == s.heartbeats
    decreases Measure(s)
  {
    var e := if Enabled(s, HeartbeatStep(true)) then HeartbeatStep(true) else OwnerStep(true);
    JoiningLeavesRetry(s, e);
    StepKeepsInv(s, e);
    es := [];
    if !Apply(s, e).owner.JoinMonitor? {
      StepLowersMeasure(s, e);
      es := PassHeartbeatJoin(Apply(s, e));
    }
    es := Prepend(s, e, es);
  }

  lemma JoiningLeavesRetry(s: State, e: Event)
    requires Inv(s) && (s.owner.StopClient? || s.owner.JoinHeartbeat?)
    requires e == if Enabled(s, HeartbeatStep(true)) then HeartbeatStep(true) else OwnerStep(true)
    ensures Enabled(s, e)
    ensures var t := Apply(s, e);
      && SameRetry(s, t) && t.heartbeats == s.heartbeats
      && (t.owner.StopClient? || t.owner.JoinHeartbeat? || (t.owner.JoinMonitor? && !t.heartbeatJoinable))
  {}

  /** The successful retry finds the heartbeat handle empty and creates a heartbeat. */
  lemma {:induction false} DriveToHeartbeat(s: State) returns (es: seq<Event>)
    requires Inv(s) && FlagCleared(s) && HeartbeatAhead(s) && s.config.heartbeat && !s.heartbeatJoinable
    ensures Legal(s, es)
    ensures var t := Exec(s, es);
      Inv(t) && t.owner == s.owner && t.heartbeatJoinable && t.heartbeats == s.heartbeats + 1
    decreases WorkerRank(Active(s))
  {
    var e := WorkerStep(if s.monitor.Absent? then Reconnect else Monitor, true);
    HeartbeatComesNearer(s, e.who);
    StepKeepsInv(s, e);
    es := [];
    if !Active(s).LHeartbeat? {
      FlagStaysCleared(s, e);
      es := DriveToHeartbeat(Apply(s, e));
    }
    es := Prepend(s, e, es);
  }

  lemma HeartbeatComesNearer(s: State, who: Who)
    requires ThreadsFit(s) && FlagCleared(s) && HeartbeatAhead(s) && s.config.heartbeat && !s.heartbeatJoinable
    requires who == if s.monitor.Absent? then Reconnect else Monitor
    ensures Enabled(s, WorkerStep(who, true))
    ensures var t := WorkerNext(s, who, true);
      && t.owner == s.owner
      && (if Active(s).LHeartbeat? then t.heartbeatJoinable && t.heartbeats == s.heartbeats + 1
          else && HeartbeatAhead(t) && t.config == s.config && !t.heartbeatJoinable && t.heartbeats == s.heartbeats
               && WorkerRank(Active(t)) < WorkerRank(Active(s)))
  {}

  /** The successful retry finds the monitor handle empty and creates a monitor. */
  lemma {:induction false} DriveToMonitor(s: State) returns (es: seq<Event>)
    requires Inv(s) && s.owner.JoinReconnect? && MonitorAhead(s)
    ensures Legal(s, es)
    ensures var t := Exec(s, es); Inv(t) && t.owner == s.owner && t.monitorJoinable
    decreases WorkerRank(s.reconnect)
  {
    var e := WorkerStep(Reconnect, true);
    MonitorComesNearer(s);
    StepKeepsInv(s, e);
    es := [];
    if !s.reconnect.LMonitor? {
      es := DriveToMonitor(Apply(s, e));
    }
    es := Prepend(s, e, es);
  }

  lemma MonitorComesNearer(s: State)
    requires ThreadsFit(s) && s.owner.JoinReconnect? && MonitorAhead(s)
    ensures Enabled(s, WorkerStep(Reconnect, true))
    ensures var t := WorkerNext(s, Reconnect, true);
      && t.owner == s.owner
      && (if s.reconnect.LMonitor? then t.monitorJoinable
          else MonitorAhead(t) && WorkerRank(t.reconnect) < WorkerRank(s.reconnect))
  {}

  /** A joinable handle that `stop` has already been past. */
  predicate HandleStays(s: State) {
    (PastHeartbeatJoin(s.owner) && s.heartbeatJoinable) || (PastMonitorJoin(s.owner) && s.monitorJoinable)
  }

  lemma {:induction false} FinishWithHandle(s: State) returns (es: seq<Event>)
    requires Inv(s) && FlagCleared(s) && HandleStays(s)
    ensures LeavesJoinable(s, es) && Quiet(Exec(s, es))
    decreases Measure(s)
  {
    if Quiet(s) {
      es := [];
    } else {
      var e := NextToFinish(s);
      FinishingKeepsHandle(s);
      StepKeepsInv(s, e);
      FlagStaysCleared(s, e);
      StepLowersMeasure(s, e);
      var rest := FinishWithHandle(Apply(s, e));
      es := Prepend(s, e, rest);
    }
  }

  lemma FinishingKeepsHandle(s: State)
    requires Inv(s) && FlagCleared(s) && HandleStays(s) && !Quiet(s)
    ensures var e := NextToFinish(s); Enabled(s, e) && !e.Drop? && HandleStays(Apply(s, e))
  {}

  lemma HeartbeatOutlivesStop(s: State) returns (es: seq<Event>)
    requires Inv(s) && s.owner.StopClient? && s.config.heartbeat && HeartbeatAhead(s)
    ensures LeavesJoinable(s, es) && Quiet(Exec(s, es))
  {
    es := PassHeartbeatJoin(s);
    var t := Exec(s, es);
    var create := DriveToHeartbeat(t);
    var finish := FinishWithHandle(Exec(t, create));
    Concat(t, create, finish);
    Concat(s, es, create + finish);
    es := es + (create + finish);
  }

  lemma MonitorOutlivesStop(s: State) returns (es: seq<Event>)
    requires Inv(s) && s.owner.StopClient? && MonitorAhead(s)
    ensures LeavesJoinable(s, es) && Quiet(Exec(s, es))
  {
    es := PassHeartbeatJoin(s);
    var t := Exec(s, es);
    StepKeepsInv(t, OwnerStep(true));
    OwnerKeepsRetry(t, true);
    var u := Apply(t, OwnerStep(true));
    var create := DriveToMonitor(u);
    var finish := FinishWithHandle(Exec(u, create));
    Concat(u, create, finish);
    var rest := Prepend(t, OwnerStep(true), create + finish);
    Concat(s, es, rest);
    es := es + rest;
  }

  /**
   * When `stop` comes to close the client, it can still return with a joinable handle
   * exactly if a retry is on its way to create a heartbeat, or the first monitor, after
   * `stop` has been past the handle.
   */
  lemma HandleLeftExactlyIfRetryAhead(config: Config, es: seq<Event>)
    requires Legal(Init(config), es) && Exec(Init(config), es).owner.StopClient?
    ensures var s := Exec(Init(config), es);
      (exists more :: LeavesJoinable(s, more)) <==> (config.heartbeat && HeartbeatAhead(s)) || MonitorAhead(s)
  {
    var s := Exec(Init(config), es);
    ReachableInv(config, es);
    RunKeepsConfig(Init(config), es);
    if config.heartbeat && HeartbeatAhead(s) {
      var more := HeartbeatOutlivesStop(s);
    } else if MonitorAhead(s) {
      var more := MonitorOutlivesStop(s);
    } else {
      forall more | Legal(s, more)
        ensures !LeavesJoinable(s, more)
      {
        TidyStays(s, more);
      }
    }
  }

  /** The first heartbeat is joined, and the retry creates another. */
  lemma SecondHeartbeat(s: State) returns (es: seq<Event>)
    requires Inv(s) && s.owner.StopClient? && s.heartbeats == 1 && HeartbeatAhead(s)
    ensures CreatesSecondHeartbeat(s, es)
  {
    es := PassHeartbeatJoin(s);
    var rest := DriveToHeartbeat(Exec(s, es));
    Concat(s, es, rest);
    es := es + rest;
  }

  /**
   * A second heartbeat can appear exactly if there is one when `stop` comes to close the
   * client and a retry is on its way to its test of the heartbeat handle: `stop` joins
   * the first one and so empties the handle that the test relies on.
   */
  lemma SecondHeartbeatExactlyIfRetryAhead(config: Config, es: seq<Event>)
    requires Legal(Init(config), es) && Exec(Init(config), es).owner.StopClient?
    ensures var s := Exec(Init(config), es);
      (exists more :: CreatesSecondHeartbeat(s, more)) <==> s.heartbeats == 1 && HeartbeatAhead(s)
  {
    var s := Exec(Init(config), es);
    ReachableInv(config, es);
    if s.heartbeats == 1 && HeartbeatAhead(s) {
      var more := SecondHeartbeat(s);
    } else {
      forall more | Legal(s, more)
        ensures !CreatesSecondHeartbeat(s, more)
      {
        HeartbeatBudget(s, more);
      }
    }
  }

  // ---- Seen from the call of `stop` ----

  /** No retry will come to the handles: of the heartbeat, and of the monitor if there is none yet. */
  predicate Settled(s: State) {
    && !(s.config.heartbeat && (CanRetry(s) || HeartbeatAhead(s)))
    && !(s.monitor.Absent? && CanRetry(s))
  }

  /** At no point of the run will a retry come to a handle that `stop` has been past. */
  predicate Orderly(s: State) {
    if Serving(s.owner) then Settled(s) else Tidy(s)
  }

  lemma OrderlyStep(s: State, e: Event)
    requires Inv(s) && Enabled(s, e) && Orderly(s)
    ensures Orderly(Apply(s, e))
  {
    if !Serving(s.owner) {
      TidyStep(s, e);
    } else {
      match e
      case WorkerStep(who, ok) => SettledWorkerStep(s, who, ok);
      case OwnerStep(ok) => SettledOwnerStep(s, ok);
      case _ =>
    }
  }

  lemma SettledWorkerStep(s: State, who: Who, ok: bool)
    requires Inv(s) && Enabled(s, WorkerStep(who, ok)) && Serving(s.owner) && Settled(s)
    ensures var t := WorkerNext(s, who, ok); Serving(t.owner) && Settled(t)
  {
    OnlyActiveMoves(s, who, ok);
    WorkerKeepsMonitor(s, who, ok);
  }

  lemma SettledOwnerStep(s: State, ok: bool)
    requires Inv(s) && Enabled(s, OwnerStep(ok)) && Serving(s.owner) && Settled(s)
    ensures Orderly(OwnerNext(s, ok))
  {
    OwnerKeepsMonitor(s, ok);
  }

  lemma {:induction false} OrderlyStays(s: State, es: seq<Event>)
    requires Inv(s) && Legal(s, es) && Orderly(s)
    ensures Orderly(Exec(s, es)) && Inv(Exec(s, es))
    decreases |es|
  {
    if es != [] {
      StepKeepsInv(s, es[0]);
      OrderlyStep(s, es[0]);
      OrderlyStays(Apply(s, es[0]), es[1..]);
    }
  }

  /** A first retry, with its test of the run flag still ahead, passes it. */
  lemma {:induction false} DriveToMonitorAhead(s: State) returns (es: seq<Event>)
    requires Inv(s) && Serving(s.owner) && s.monitor.Absent? && CanRetry(s)
    ensures Legal(s, es)
    ensures var t := Exec(s, es); Inv(t) && Serving(t.owner) && MonitorAhead(t)
    decreases RetryRank(s.reconnect)
  {
    if MonitorAhead(s) {
      es := [];
    } else {
      var e := WorkerStep(Reconnect, true);
      StepKeepsInv(s, e);
      FirstRetryGoesOn(s);
      es := DriveToMonitorAhead(Apply(s, e));
      es := Prepend(s, e, es);
    }
  }

  lemma FirstRetryGoesOn(s: State)
    requires ThreadsFit(s) && Serving(s.owner) && s.monitor.Absent? && CanRetry(s) && !MonitorAhead(s)
    ensures Enabled(s, WorkerStep(Reconnect, true))
    ensures var t := WorkerNext(s, Reconnect, true);
      && Serving(t.owner) && t.monitor.Absent? && CanRetry(t)
      && RetryRank(t.reconnect) < RetryRank(s.reconnect)
  {}

  lemma FirstRetryOutlivesStop(s: State) returns (es: seq<Event>)
    requires Inv(s) && Serving(s.owner) && s.monitor.Absent? && CanRetry(s)
    ensures LeavesJoinable(s, es) && Quiet(Exec(s, es))
  {
    es := DriveToMonitorAhead(s);
    var t := Exec(s, es);
    var call := DriveToStopClient(t);
    var rest := MonitorOutlivesStop(Exec(t, call));
    Concat(t, call, rest);
    Concat(s, es, call + rest);
    es := es + (call + rest);
  }

  /** A retry comes on its way to the heartbeat handle, after a first heartbeat if need be. */
  lemma DriveToHeartbeatAhead(s: State) returns (es: seq<Event>)
    requires Inv(s) && Configured(s) && Serving(s.owner) && (CanRetry(s) || HeartbeatAhead(s))
    ensures Legal(s, es)
    ensures var t := Exec(s, es); Inv(t) && Serving(t.owner) && t.config == s.config && HeartbeatAhead(t)
  {
    if HeartbeatAhead(s) {
      es := [];
    } else {
      es := DriveToAttempt(s);
      RunKeepsInv(s, es);
      RunKeepsConfig(s, es);
    }
  }

  lemma LateHeartbeatOutlivesStop(s: State) returns (es: seq<Event>)
    requires Inv(s) && Configured(s) && Serving(s.owner) && s.config.heartbeat && (CanRetry(s) || HeartbeatAhead(s))
    ensures LeavesJoinable(s, es) && Quiet(Exec(s, es))
  {
    es := DriveToHeartbeatAhead(s);
    var t := Exec(s, es);
    var call := DriveToStopClient(t);
    var rest := HeartbeatOutlivesStop(Exec(t, call));
    Concat(t, call, rest);
    Concat(s, es, call + rest);
    es := es + (call + rest);
  }

  /**
   * A `stop` called now can return with a joinable handle exactly if heartbeats are
   * enabled and a retry can come to, or is on its way to, the heartbeat handle, or there
   * is no monitor yet and the first retry can still succeed.
   */
  lemma HandleLeftExactlyIfRetryPossible(config: Config, es: seq<Event>)
    requires Legal(Init(config), es) && Serving(Exec(Init(config), es).owner)
    ensures var s := Exec(Init(config), es);
      (exists more :: LeavesJoinable(s, more)) <==>
      (config.heartbeat && (CanRetry(s) || HeartbeatAhead(s))) || (s.monitor.Absent? && CanRetry(s))
  {
    var s := Exec(Init(config), es);
    ReachableInv(config, es);
    StateFollowsTheThreads(config, es);
    RunKeepsConfig(Init(config), es);
    if Settled(s) {
      forall more | Legal(s, more)
        ensures !LeavesJoinable(s, more)
      {
        OrderlyStays(s, more);
      }
    } else if s.config.heartbeat && (CanRetry(s) || HeartbeatAhead(s)) {
      var more := LateHeartbeatOutlivesStop(s);
    } else {
      var more := FirstRetryOutlivesStop(s);
    }
  }

  /**
   * So with automatic reconnection, heartbeat or not, `stop` can return with every thread
   * finished and a handle that was never joined.
   */
  lemma StopCanLeaveAJoinableHandle(config: Config) returns (es: seq<Event>)
    requires config.autoReconnect
    ensures Legal(Init(config), es)
    ensures var s := Exec(Init(config), es);
      && s.owner.Stopped? && AnyJoinable(s)
      && Finished(s.monitor) && Finished(s.reconnect) && (s.heartbeat.HAbsent? || s.heartbeat.HDone?)
  {
    es := LaunchRetrying(config);
    ReachableInv(config, es);
    var rest := FirstRetryOutlivesStop(LaunchedRetrying(config));
    Concat(Init(config), es, rest);
    es := es + rest;
  }

  // ---- The second heartbeat, seen from the call of `stop` ----

  /** The heartbeat, if enabled, is created before the monitor. */
  predicate HeartbeatComesFirst(s: State) {
    s.config.heartbeat && (!s.monitor.Absent? || s.owner.StartMonitor? || s.reconnect.LMonitor?)
    ==> s.heartbeats >= 1
  }

  lemma OwnerKeepsFirst(s: State, ok: bool)
    requires ThreadsFit(s) && Enabled(s, OwnerStep(ok)) && HeartbeatComesFirst(s)
    ensures HeartbeatComesFirst(OwnerNext(s, ok))
  {}

  lemma WorkerKeepsFirst(s: State, who: Who, ok: bool)
    requires ThreadsFit(s) && Enabled(s, WorkerStep(who, ok)) && HeartbeatComesFirst(s)
    ensures HeartbeatComesFirst(WorkerNext(s, who, ok))
  {
    OnlyActiveMoves(s, who, ok);
  }

  lemma {:induction false} FirstKept(s: State, es: seq<Event>)
    requires Inv(s) && Legal(s, es) && HeartbeatComesFirst(s)
    ensures HeartbeatComesFirst(Exec(s, es))
    decreases |es|
  {
    if es != [] {
      StepKeepsInv(s, es[0]);
      match es[0] {
        case OwnerStep(ok) => OwnerKeepsFirst(s, ok);
        case WorkerStep(who, ok) => WorkerKeepsFirst(s, who, ok);
        case _ =>
      }
      FirstKept(Apply(s, es[0]), es[1..]);
    }
  }

  /** With a monitor there, a retry on its way to the handles meets a `stop` called at once. */
  lemma SecondHeartbeatFromRetry(s: State) returns (es: seq<Event>)
    requires Inv(s) && Serving(s.owner) && s.heartbeats == 1 && HeartbeatAhead(s)
    ensures CreatesSecondHeartbeat(s, es)
  {
    es := DriveToStopClient(s);
    var rest := SecondHeartbeat(Exec(s, es));
    Concat(s, es, rest);
    es := es + rest;
  }

  lemma SecondHeartbeatWithMonitor(s: State) returns (es: seq<Event>)
    requires Inv(s) && Configured(s) && Serving(s.owner) && s.config.heartbeat && HeartbeatComesFirst(s)
    requires !s.monitor.Absent? && (CanRetry(s) || HeartbeatAhead(s))
    ensures CreatesSecondHeartbeat(s, es)
  {
    es := DriveToHeartbeatAhead(s);
    FirstKept(s, es);
    MonitorStays(s, es);
    var rest := SecondHeartbeatFromRetry(Exec(s, es));
    Concat(s, es, rest);
    es := es + rest;
  }

  lemma {:induction false} MonitorStays(s: State, es: seq<Event>)
    requires Inv(s) && Legal(s, es) && !s.monitor.Absent?
    ensures !Exec(s, es).monitor.Absent?
    decreases |es|
  {
    if es != [] {
      StepKeepsInv(s, es[0]);
      MonitorStaysStep(s, es[0]);
      MonitorStays(Apply(s, es[0]), es[1..]);
    }
  }

  lemma MonitorStaysStep(s: State, e: Event)
    requires Enabled(s, e) && !s.monitor.Absent?
    ensures !Apply(s, e).monitor.Absent?
  {
    match e
    case OwnerStep(ok) => OwnerKeepsMonitorThread(s, ok);
    case WorkerStep(who, ok) => WorkerKeepsMonitorThread(s, who, ok);
    case _ =>
  }

  lemma OwnerKeepsMonitorThread(s: State, ok: bool)
    requires !s.monitor.Absent?
    ensures !OwnerNext(s, ok).monitor.Absent?
  {}

  lemma WorkerKeepsMonitorThread(s: State, who: Who, ok: bool)
    requires !s.monitor.Absent?
    ensures !WorkerNext(s, who, ok).monitor.Absent?
  {}

  /** Without a monitor the first retry succeeds and creates one, and a heartbeat before it. */
  lemma SecondHeartbeatWithoutMonitor(s: State) returns (es: seq<Event>)
    requires Inv(s) && Configured(s) && Serving(s.owner) && s.config.heartbeat && HeartbeatComesFirst(s)
    requires s.monitor.Absent? && CanRetry(s)
    ensures CreatesSecondHeartbeat(s, es)
  {
    es := DriveToReconnected(s, Reconnect);
    RunKeepsConfig(s, es);
    ConfiguredKept(s, es);
    FirstKept(s, es);
    var t := Exec(s, es);
    var rest := SecondHeartbeatWithMonitor(t);
    Concat(s, es, rest);
    es := es + rest;
  }

  lemma {:induction false} ConfiguredKept(s: State, es: seq<Event>)
    requires Inv(s) && Legal(s, es) && Configured(s)
    ensures Configured(Exec(s, es))
    decreases |es|
  {
    if es != [] {
      StepKeepsInv(s, es[0]);
      StepKeepsConfig(s, es[0]);
      StepKeepsConfigured(s, es[0]);
      ConfiguredKept(Apply(s, es[0]), es[1..]);
    }
  }

  /** A second heartbeat leads, by the budget, from a retry that could come to the handle. */
  lemma {:induction false} SettledMakesNone(s: State, es: seq<Event>)
    requires Inv(s) && Legal(s, es) && Serving(s.owner)
    requires !(s.config.heartbeat && (CanRetry(s) || HeartbeatAhead(s)))
    ensures Exec(s, es).heartbeats <= 1
    decreases |es|
  {
    if es != [] {
      var t := Apply(s, es[0]);
      StepKeepsInv(s, es[0]);
      NoneAheadStep(s, es[0]);
      if Serving(t.owner) {
        SettledMakesNone(t, es[1..]);
      } else {
        RunKeepsInv(t, es[1..]);
        RunKeepsConfig(t, es[1..]);
        HeartbeatBudget(t, es[1..]);
      }
    }
  }

  lemma NoneAheadStep(s: State, e: Event)
    requires Inv(s) && Enabled(s, e) && Serving(s.owner)
    requires !(s.config.heartbeat && (CanRetry(s) || HeartbeatAhead(s)))
    ensures var t := Apply(s, e);
      && !(t.config.heartbeat && HeartbeatAhead(t))
      && (if Serving(t.owner) then !(t.config.heartbeat && CanRetry(t)) else t.owner.StopClient?)
  {
    match e
    case WorkerStep(who, ok) => NoneAheadWorkerStep(s, who, ok);
    case OwnerStep(ok) => NoneAheadOwnerStep(s, ok);
    case _ =>
  }

  lemma NoneAheadWorkerStep(s: State, who: Who, ok: bool)
    requires ThreadsFit(s) && Enabled(s, WorkerStep(who, ok))
    requires !(s.config.heartbeat && (CanRetry(s) || HeartbeatAhead(s)))
    ensures var t := WorkerNext(s, who, ok);
      t.owner == s.owner && !(t.config.heartbeat && (CanRetry(t) || HeartbeatAhead(t)))
  {
    OnlyActiveMoves(s, who, ok);
    WorkerKeepsMonitor(s, who, ok);
  }

  lemma NoneAheadOwnerStep(s: State, ok: bool)
    requires ThreadsFit(s) && Enabled(s, OwnerStep(ok)) && Serving(s.owner)
    ensures var t := OwnerNext(s, ok);
      && t.config == s.config && (CanRetry(t) <==> CanRetry(s)) && (HeartbeatAhead(t) <==> HeartbeatAhead(s))
      && (Serving(t.owner) || t.owner.StopClient?)
  {
    OwnerKeepsMonitor(s, ok);
  }

  /**
   * A `stop` called now can see a second heartbeat exactly if heartbeats are enabled and a
   * retry can come to, or is on its way to, the heartbeat handle.
   */
  lemma SecondHeartbeatExactlyIfRetryPossible(config: Config, es: seq<Event>)
    requires Legal(Init(config), es) && Serving(Exec(Init(config), es).owner)
    ensures var s := Exec(Init(config), es);
      (exists more :: CreatesSecondHeartbeat(s, more)) <==> config.heartbeat && (CanRetry(s) || HeartbeatAhead(s))
  {
    var s := Exec(Init(config), es);
    ReachableInv(config, es);
    StateFollowsTheThreads(config, es);
    RunKeepsConfig(Init(config), es);
    InitInv(config);
    FirstKept(Init(config), es);
    if config.heartbeat && (CanRetry(s) || HeartbeatAhead(s)) {
      if s.monitor.Absent? {
        var more := SecondHeartbeatWithoutMonitor(s);
      } else {
        var more := SecondHeartbeatWithMonitor(s);
      }
    } else {
      forall more | Legal(s, more)
        ensures !CreatesSecondHeartbeat(s, more)
      {
        SettledMakesNone(s, more);
      }
    }
  }

  /** For every configuration with automatic reconnection and heartbeats, a run with a second heartbeat. */
  lemma SecondHeartbeatCanAppear(config: Config) returns (es: seq<Event>)
    requires config.autoReconnect && config.heartbeat
    ensures Legal(Init(config), es) && Exec(Init(config), es).heartbeats == 2
  {
    es := Launch(config);
    ReachableInv(config, es);
    var rest := SecondHeartbeatWithMonitor(Launched(config));
    Concat(Init(config), es, rest);
    es := es + rest;
  }
}

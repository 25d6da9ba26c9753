/**
 * What holds of the connection manager in every run.
 */
module ConnectionResults {
  import opened ConnectionModel

  lemma {:induction false} RunKeepsInv(s: State, es: seq<Event>)
    requires Inv(s) && Legal(s, es)
    ensures Inv(Exec(s, es))
    decreases |es|
  {
    if es != [] {
      StepKeepsInv(s, es[0]);
      RunKeepsInv(Apply(s, es[0]), es[1..]);
    }
  }

  lemma ReachableInv(config: Config, es: seq<Event>)
    requires Legal(Init(config), es)
    ensures Inv(Exec(Init(config), es))
  {
    InitInv(config);
    RunKeepsInv(Init(config), es);
  }

  // ---- Closed is final ----

  lemma StepAfterStop(s: State, e: Event)
    requires Inv(s) && Enabled(s, e) && s.owner.Stopped?
    ensures Apply(s, e).owner.Stopped?
  {}

  /**
   * Once `stop` has returned the state is Closed, and no step of any worker changes it,
   * whatever the interleaving, a monitor created late by the reconnect thread included.
   */
  lemma {:induction false} ClosedIsFinal(config: Config, es: seq<Event>, more: seq<Event>)
    requires Legal(Init(config), es) && Exec(Init(config), es).owner.Stopped?
    requires Legal(Exec(Init(config), es), more)
    ensures Exec(Init(config), es).state.Closed?
    ensures Exec(Exec(Init(config), es), more).state.Closed?
  {
    ReachableInv(config, es);
    StoppedStays(Exec(Init(config), es), more);
  }

  lemma {:induction false} StoppedStays(s: State, more: seq<Event>)
    requires Inv(s) && s.owner.Stopped? && Legal(s, more)
    ensures Exec(s, more).owner.Stopped? && Exec(s, more).state.Closed?
    decreases |more|
  {
    if more != [] {
      StepKeepsInv(s, more[0]);
      StepAfterStop(s, more[0]);
      StoppedStays(Apply(s, more[0]), more[1..]);
    }
  }

  // ---- One retry at a time, never over a live client ----

  /**
   * At most one thread is inside the retry loop; whoever is about to create a client
   * finds the pointer null; the monitor only ever discards a dead client; and Connected
   * implies a non-null client.
   */
  lemma RetryIsExclusive(config: Config, es: seq<Event>)
    requires Legal(Init(config), es)
    ensures var s := Exec(Init(config), es);
      && !(Retrying(s.monitor) && Retrying(s.reconnect))
      && (s.monitor.LCreate? || s.reconnect.LCreate? || s.owner.StartCreate? ==> s.client.NoClient?)
      && (s.monitor.MDrop? ==> s.client == Client(false))
      && (s.state.Connected? ==> s.client.Client?)
  {
    ReachableInv(config, es);
  }

  /**
   * No thread handle is overwritten while its thread is joinable: whoever creates a
   * thread, a worker under its own handle included, finds the handle empty, and a
   * joinable worker is moved by its own steps only.
   */
  lemma JoinableThreadsAreNotReplaced(config: Config, es: seq<Event>, e: Event)
    requires Legal(Init(config), es) && Enabled(Exec(Init(config), es), e)
    ensures var s := Exec(Init(config), es); var t := Apply(s, e);
      && (t.heartbeats > s.heartbeats ==> !s.heartbeatJoinable)
      && (t.monitors > s.monitors ==> !s.monitorJoinable)
      && (s.owner.StartReconnectThread? ==> !s.reconnectJoinable)
      && (s.heartbeatJoinable && !e.HeartbeatStep? ==> t.heartbeat == s.heartbeat)
      && (s.monitorJoinable && !Moves(e, Monitor) ==> t.monitor == s.monitor)
      && (s.reconnectJoinable && !Moves(e, Reconnect) ==> t.reconnect == s.reconnect)
  {
    ReachableInv(config, es);
  }

  predicate Moves(e: Event, who: Who) {
    e.WorkerStep? && e.who == who
  }

  // ---- One monitor, one detected loss ----

  /**
   * A run creates at most one monitor and detects at most one loss.  After the monitor's
   * own reconnect has succeeded no worker is left that could store to the state, which
   * stays Connected until `stop`.
   */
  lemma OneMonitorOneLoss(config: Config, es: seq<Event>)
    requires Legal(Init(config), es)
    ensures var s := Exec(Init(config), es);
      && s.monitors <= 1 && s.losses <= 1
      && (s.recovered && BeforeStop(s.owner) ==>
          s.state.Connected? && Finished(s.monitor) && Finished(s.reconnect))
  {
    ReachableInv(config, es);
  }

  /** A limited retry gives up after exactly `maxTries` attempts, with the counter one past the limit. */
  lemma GivesUpAtTheLimit(config: Config, es: seq<Event>)
    requires Legal(Init(config), es) && config.maxTries > 0
    ensures var s := Exec(Init(config), es);
      && s.attempts <= config.maxTries
      && (s.monitor.LExceeded? || s.reconnect.LExceeded? ==>
          s.attempts == config.maxTries && s.count == config.maxTries + 1)
  {
    ReachableInv(config, es);
    RunKeepsConfig(Init(config), es);
    ReconnectIsActive(Exec(Init(config), es));
  }

  lemma ReconnectIsActive(s: State)
    requires Inv(s)
    ensures Retrying(s.reconnect) ==> Active(s) == s.reconnect
    ensures Retrying(s.monitor) ==> Active(s) == s.monitor
  {}

  lemma {:induction false} RunKeepsConfig(s: State, es: seq<Event>)
    requires Legal(s, es)
    ensures Exec(s, es).config == s.config
    decreases |es|
  {
    if es != [] {
      StepKeepsConfig(s, es[0]);
      RunKeepsConfig(Apply(s, es[0]), es[1..]);
    }
  }

  lemma StepKeepsConfig(s: State, e: Event)
    requires Enabled(s, e)
    ensures Apply(s, e).config == s.config
  {
    match e
    case OwnerStep(_) => OwnerThreadsKeepConfig(s);
    case WorkerStep(who, ok) =>
      WorkerThreadsKeepConfig(
        Goto(s, who, WorkerGoes(Pc(s, who), s.config, s.run, s.client, s.count, ok)), Pc(s, who));
    case _ =>
  }

  lemma OwnerThreadsKeepConfig(s: State)
    ensures OwnerThreads(s).config == s.config
  {}

  lemma WorkerThreadsKeepConfig(s: State, w: Worker)
    ensures WorkerThreads(s, w).config == s.config
  {}

  // ---- How a retry ends ----

  /**
   * Without automatic reconnection nobody retries; with it the monitor does not give up
   * unasked, and after `start` there is always a worker in charge.
   */
  predicate RetryIsConfigured(c: Config, o: Owner, m: Worker, r: Worker) {
    if c.autoReconnect then
      !m.MGiveUp? && !o.StartDisconnected? && (Starting(o) || o.Fresh? || !m.Absent? || !r.Absent?)
    else r.Absent? && !Retrying(m) && !o.StartReconnecting? && !o.StartReconnectThread?
  }

  /** The state that goes with the threads' positions before `stop`. */
  function StateFor(o: Owner, w: Worker, recovered: bool): ConnectionState {
    match o
    case Fresh | StartConnecting => Disconnected
    case StartZero | StartHeartbeat | StartMonitor => Connected
    case StartReconnectThread => Reconnecting
    case Running | StopClosing =>
      if w.Absent? then Disconnected
      else if w.Done? then (if recovered then Connected else Disconnected)
      else if Recovering(w) then Reconnecting
      else Connected
    case _ => Connecting
  }

  /**
   * Before `stop` the state is the one that goes with the threads' positions; and a worker
   * that has finished has recovered the connection or used up its attempts.
   */
  predicate EndFits(s: State) {
    && (BeforeStop(s.owner) ==> s.state == StateFor(s.owner, Active(s), s.recovered))
    && (BeforeStop(s.owner) && Active(s).Done? ==>
        if s.recovered then s.client.Client?
        else s.client.NoClient? && (s.config.autoReconnect ==> 0 < s.config.maxTries == s.attempts))
  }

  lemma StepKeepsConfigured(s: State, e: Event)
    requires Inv(s) && Enabled(s, e) && RetryIsConfigured(s.config, s.owner, s.monitor, s.reconnect)
    ensures var t := Apply(s, e); RetryIsConfigured(s.config, t.owner, t.monitor, t.reconnect)
  {
    match e
    case OwnerStep(ok) => OwnerKeepsConfigured(s, ok);
    case WorkerStep(who, ok) => WorkerKeepsConfigured(s, who, ok);
    case _ =>
  }

  lemma OwnerKeepsConfigured(s: State, ok: bool)
    requires Inv(s) && Enabled(s, OwnerStep(ok)) && RetryIsConfigured(s.config, s.owner, s.monitor, s.reconnect)
    ensures var t := OwnerNext(s, ok); RetryIsConfigured(s.config, t.owner, t.monitor, t.reconnect)
  {}

  lemma WorkerKeepsConfigured(s: State, who: Who, ok: bool)
    requires Inv(s) && Enabled(s, WorkerStep(who, ok)) && RetryIsConfigured(s.config, s.owner, s.monitor, s.reconnect)
    ensures var t := WorkerNext(s, who, ok); RetryIsConfigured(s.config, t.owner, t.monitor, t.reconnect)
  {
    OnlyActiveMoves(s, who, ok);
  }

  lemma WorkerKeepsEnd(s: State, who: Who, ok: bool)
    requires Inv(s) && Enabled(s, WorkerStep(who, ok)) && EndFits(s)
    requires RetryIsConfigured(s.config, s.owner, s.monitor, s.reconnect)
    ensures EndFits(WorkerNext(s, who, ok))
  {
    OnlyActiveMoves(s, who, ok);
    WorkerKeepsThreads(s, who, ok);
    WorkerKeepsShared(s, who, ok);
  }

  lemma StepKeepsEnd(s: State, e: Event)
    requires Inv(s) && Enabled(s, e) && EndFits(s)
    requires RetryIsConfigured(s.config, s.owner, s.monitor, s.reconnect)
    ensures EndFits(Apply(s, e))
  {
    match e
    case WorkerStep(who, ok) => WorkerKeepsEnd(s, who, ok);
    case OwnerStep(ok) => OwnerKeepsEnd(s, ok);
    case _ =>
  }

  lemma OwnerKeepsEnd(s: State, ok: bool)
    requires ThreadsFit(s) && SharedFits(s, Active(s)) && Enabled(s, OwnerStep(ok)) && EndFits(s)
    ensures EndFits(OwnerNext(s, ok))
  {
    OwnerKeepsMonitor(s, ok);
  }

  lemma {:induction false} EndKept(s: State, es: seq<Event>)
    requires Inv(s) && Legal(s, es) && EndFits(s)
    requires RetryIsConfigured(s.config, s.owner, s.monitor, s.reconnect)
    ensures var t := Exec(s, es); EndFits(t) && RetryIsConfigured(t.config, t.owner, t.monitor, t.reconnect)
    decreases |es|
  {
    if es != [] {
      StepKeepsInv(s, es[0]);
      StepKeepsConfig(s, es[0]);
      StepKeepsConfigured(s, es[0]);
      StepKeepsEnd(s, es[0]);
      EndKept(Apply(s, es[0]), es[1..]);
    }
  }

  /**
   * Before `stop` the state is determined by where the threads are, and the worker that
   * owns the client pointer finishes in one of two ways: connected again, or Disconnected
   * with a null client, after all allowed attempts if reconnection is automatic and after
   * none if it is not.
   */
  lemma StateFollowsTheThreads(config: Config, es: seq<Event>)
    requires Legal(Init(config), es)
    ensures var s := Exec(Init(config), es);
      EndFits(s) && RetryIsConfigured(config, s.owner, s.monitor, s.reconnect)
  {
    InitInv(config);
    EndKept(Init(config), es);
    RunKeepsConfig(Init(config), es);
  }

  /** With automatic reconnection a `start` that has returned, connected or not, leaves a worker in charge. */
  lemma SomeoneIsInCharge(config: Config, es: seq<Event>)
    requires Legal(Init(config), es) && config.autoReconnect && Exec(Init(config), es).owner.Running?
    ensures !Active(Exec(Init(config), es)).Absent?
  {
    StateFollowsTheThreads(config, es);
  }

  // ---- The state while `stop` runs ----

  /** The state that a step of a worker stores, `last` if it stores none. */
  function StoredBy(s: State, e: Event, last: ConnectionState): ConnectionState {
    if !e.WorkerStep? then last
    else
      match Pc(s, e.who)
      case MLost => Reconnecting
      case MGiveUp | LExceeded => Disconnected
      case LConnected => Connected
      case _ => last
  }

  /** The last state that a worker has stored in a run, `last` if none has. */
  ghost function LastStored(s: State, es: seq<Event>, last: ConnectionState): ConnectionState
    requires Legal(s, es)
    decreases |es|
  {
    if es == [] then last
    else LastStored(Apply(s, es[0]), es[1..], StoredBy(s, es[0], last))
  }

  lemma StoppingStep(s: State, e: Event)
    requires Enabled(s, e) && !BeforeStop(s.owner) && !s.owner.Stopped?
    ensures !BeforeStop(Apply(s, e).owner)
    ensures !Apply(s, e).owner.Stopped? ==> Apply(s, e).state == StoredBy(s, e, s.state)
  {
    match e
    case OwnerStep(ok) => StoppingOwnerStep(s, ok);
    case WorkerStep(who, ok) => StoppingWorkerStep(s, who, ok);
    case _ =>
  }

  lemma StoppingOwnerStep(s: State, ok: bool)
    requires !BeforeStop(s.owner) && !s.owner.Stopped?
    ensures !BeforeStop(OwnerNext(s, ok).owner)
    ensures !OwnerNext(s, ok).owner.Stopped? ==> OwnerNext(s, ok).state == s.state
  {}

  lemma StoppingWorkerStep(s: State, who: Who, ok: bool)
    ensures WorkerNext(s, who, ok).owner == s.owner
    ensures WorkerNext(s, who, ok).state == StoredBy(s, WorkerStep(who, ok), s.state)
  {}

  lemma {:induction false} StopRuns(s: State, es: seq<Event>)
    requires Inv(s) && Legal(s, es) && !BeforeStop(s.owner)
    ensures var t := Exec(s, es); !t.owner.Stopped? ==> t.state == LastStored(s, es, s.state)
    decreases |es|
  {
    if es != [] {
      var t := Apply(s, es[0]);
      StepKeepsInv(s, es[0]);
      if s.owner.Stopped? {
        StoppedStays(s, es);
      } else if t.owner.Stopped? {
        StoppedStays(t, es[1..]);
      } else {
        StoppingStep(s, es[0]);
        StopRuns(t, es[1..]);
      }
    }
  }

  /**
   * From its first store until it returns, `stop` shows the state Closing, or the last
   * state that a worker has stored meanwhile; then it shows Closed.
   */
  lemma ClosingUntilClosed(config: Config, es: seq<Event>, ok: bool, more: seq<Event>)
    requires Legal(Init(config), es) && Exec(Init(config), es).owner.StopClosing?
    requires Legal(Apply(Exec(Init(config), es), OwnerStep(ok)), more)
    ensures var s := Apply(Exec(Init(config), es), OwnerStep(ok));
      Exec(s, more).state == if Exec(s, more).owner.Stopped? then Closed else LastStored(s, more, Closing)
  {
    var s := Exec(Init(config), es);
    ReachableInv(config, es);
    StepKeepsInv(s, OwnerStep(ok));
    RunKeepsInv(Apply(s, OwnerStep(ok)), more);
    StopRuns(Apply(s, OwnerStep(ok)), more);
  }

  // ---- After the run flag is cleared ----

  /** `stop` has cleared the run flag. */
  predicate FlagCleared(s: State) {
    !s.run && !s.owner.Fresh?
  }

  /** The connect attempts that a run begins. */
  ghost function TriesIn(s: State, es: seq<Event>): nat
    requires Legal(s, es)
    decreases |es|
  {
    if es == [] then 0
    else (if es[0].WorkerStep? && Pc(s, es[0].who).LCreate? then 1 else 0) + TriesIn(Apply(s, es[0]), es[1..])
  }

  lemma FlagStaysCleared(s: State, e: Event)
    requires Inv(s) && Enabled(s, e) && FlagCleared(s)
    ensures FlagCleared(Apply(s, e))
    ensures Apply(s, e).lateTries ==
      s.lateTries + if e.WorkerStep? && Pc(s, e.who).LCreate? then 1 else 0
  {}

  lemma {:induction false} LateTriesAreCounted(s: State, es: seq<Event>)
    requires Inv(s) && Legal(s, es) && FlagCleared(s)
    ensures Exec(s, es).lateTries == s.lateTries + TriesIn(s, es)
    decreases |es|
  {
    if es != [] {
      StepKeepsInv(s, es[0]);
      FlagStaysCleared(s, es[0]);
      LateTriesAreCounted(Apply(s, es[0]), es[1..]);
    }
  }

  /** After `stop` has cleared the run flag at most one further connect attempt begins. */
  lemma AtMostOneLateTry(config: Config, es: seq<Event>, more: seq<Event>)
    requires Legal(Init(config), es) && FlagCleared(Exec(Init(config), es))
    requires Legal(Exec(Init(config), es), more)
    ensures TriesIn(Exec(Init(config), es), more) <= 1
  {
    var s := Exec(Init(config), es);
    ReachableInv(config, es);
    LateTriesAreCounted(s, more);
    RunKeepsInv(s, more);
  }

  /** Steps a worker can still take, at most, once the run flag is cleared. */
  function WorkerRank(w: Worker): nat {
    match w
    case Absent | Done => 0
    case MCheck | MRecheck | MGiveUp => 1
    case MSleep | MBranch => 2
    case MDrop => 3
    case MLost => 4
    case MTest => 5
    case LCheck | LExceeded => 1
    case LBackoff | LMonitor => 2
    case LHeartbeat => 4
    case LZero => 5
    case LConnected => 6
    case LCallback => 7
    case LConnect => 8
    case LCreate => 9
    case LSleep => 10
    case LLimit => 11
    case LCount => 12
  }

  function HeartbeatRank(h: Heartbeat): nat {
    match h
    case HAbsent | HDone => 0
    case HCheckRun | HRecheck => 1
    case HSleep | HSend => 2
    case HCheckState | HTest => 3
  }

  function OwnerRank(o: Owner): nat {
    match o
    case StopClient => 5
    case JoinHeartbeat => 4
    case JoinMonitor => 3
    case JoinReconnect => 2
    case StopClosed => 1
    case _ => 0
  }

  function Measure(s: State): nat {
    OwnerRank(s.owner) + HeartbeatRank(s.heartbeat) + WorkerRank(s.monitor) + WorkerRank(s.reconnect)
  }

  lemma WorkerRankFalls(w: Worker, c: Config, client: Client, count: int, ok: bool)
    requires !Finished(w)
    ensures WorkerRank(WorkerGoes(w, c, false, client, count, ok)) +
      (if w.LHeartbeat? || w.LMonitor? then 1 else 0) < WorkerRank(w)
  {}

  lemma OwnerLowersMeasure(s: State, ok: bool)
    requires Inv(s) && FlagCleared(s) && Enabled(s, OwnerStep(ok))
    ensures Measure(OwnerNext(s, ok)) < Measure(s)
  {}

  lemma WorkerLowersMeasure(s: State, who: Who, ok: bool)
    requires Inv(s) && FlagCleared(s) && Enabled(s, WorkerStep(who, ok))
    ensures Measure(WorkerNext(s, who, ok)) < Measure(s)
  {
    OnlyActiveMoves(s, who, ok);
    WorkerRankFalls(Pc(s, who), s.config, s.client, s.count, ok);
  }

  /** Every step but a connection drop lowers the measure. */
  lemma StepLowersMeasure(s: State, e: Event)
    requires Inv(s) && FlagCleared(s) && Enabled(s, e)
    ensures if e.Drop? then Measure(Apply(s, e)) == Measure(s) else Measure(Apply(s, e)) < Measure(s)
  {
    match e
    case OwnerStep(ok) => OwnerLowersMeasure(s, ok);
    case WorkerStep(who, ok) => WorkerLowersMeasure(s, who, ok);
    case HeartbeatStep(_) =>
    case CallStop =>
    case Drop =>
  }

  ghost function ThreadSteps(es: seq<Event>): nat {
    if es == [] then 0 else (if es[0].Drop? then 0 else 1) + ThreadSteps(es[1..])
  }

  lemma {:induction false} StepsAreBounded(s: State, es: seq<Event>)
    requires Inv(s) && FlagCleared(s) && Legal(s, es)
    ensures ThreadSteps(es) + Measure(Exec(s, es)) <= Measure(s)
    decreases |es|
  {
    if es != [] {
      StepKeepsInv(s, es[0]);
      FlagStaysCleared(s, es[0]);
      StepLowersMeasure(s, es[0]);
      StepsAreBounded(Apply(s, es[0]), es[1..]);
    }
  }

  /** No thread can take a step. */
  predicate Quiet(s: State) {
    && !Enabled(s, OwnerStep(true)) && !Enabled(s, HeartbeatStep(true)) && !Enabled(s, CallStop)
    && !Enabled(s, WorkerStep(Monitor, true)) && !Enabled(s, WorkerStep(Reconnect, true))
  }

  /**
   * `stop` always returns and all workers finish: once the flag is cleared the threads
   * take a bounded number of steps between them, and they can only come to rest with
   * `stop` returned and every worker finished.
   */
  lemma StopReturnsAndWorkersFinish(config: Config, es: seq<Event>, more: seq<Event>)
    requires Legal(Init(config), es) && FlagCleared(Exec(Init(config), es))
    requires Legal(Exec(Init(config), es), more)
    ensures ThreadSteps(more) <= Measure(Exec(Init(config), es)) <= 20
    ensures var s := Exec(Exec(Init(config), es), more);
      Quiet(s) ==> s.owner.Stopped? && Finished(s.monitor) && Finished(s.reconnect)
                   && (s.heartbeat.HAbsent? || s.heartbeat.HDone?)
  {
    var s := Exec(Init(config), es);
    ReachableInv(config, es);
    StepsAreBounded(s, more);
    RunKeepsInv(s, more);
    FlagStays(s, more);
    RankBounds(s);
  }

  lemma RankBounds(s: State)
    requires Inv(s)
    ensures Measure(s) <= 20
  {
    ReconnectIsActive(s);
  }

  lemma {:induction false} FlagStays(s: State, es: seq<Event>)
    requires Inv(s) && FlagCleared(s) && Legal(s, es)
    ensures FlagCleared(Exec(s, es))
    decreases |es|
  {
    if es != [] {
      StepKeepsInv(s, es[0]);
      FlagStaysCleared(s, es[0]);
      FlagStays(Apply(s, es[0]), es[1..]);
    }
  }

  // ---- A start that connects at once ----

  /** The manager right after a `start` whose first connect succeeded. */
  function Launched(config: Config): State {
    State(config, Connected, true, Client(true), 0, Running,
          if config.heartbeat then HCheckRun else HAbsent, MCheck, Absent,
          config.heartbeat, true, false, if config.heartbeat then 1 else 0, 1, 0, 0, 0, false)
  }

  lemma Launch(config: Config) returns (es: seq<Event>)
    ensures Legal(Init(config), es) && Exec(Init(config), es) == Launched(config)
  {
    var s := Init(config);
    es := Extend(s, [], OwnerStep(true));
    es := Extend(s, es, OwnerStep(true));
    es := Extend(s, es, OwnerStep(true));
    es := Extend(s, es, OwnerStep(true));
    es := Extend(s, es, OwnerStep(true));
    es := Extend(s, es, OwnerStep(true));
    es := Extend(s, es, OwnerStep(true));
    es := Extend(s, es, OwnerStep(true));
    es := Extend(s, es, OwnerStep(true));
  }

  // ---- A start that does not connect ----

  /** The manager right after a `start` whose first connect failed, with automatic reconnection. */
  function LaunchedRetrying(config: Config): State {
    State(config, Reconnecting, true, NoClient, 0, Running, HAbsent, Absent, LCheck,
          false, false, true, 0, 0, 0, 0, 0, false)
  }

  lemma LaunchFails(config: Config) returns (es: seq<Event>)
    ensures Legal(Init(config), es)
    ensures Exec(Init(config), es) == Init(config).(run := true, state := Connecting, owner := StartFailed)
  {
    var s := Init(config);
    es := Extend(s, [], OwnerStep(true));
    es := Extend(s, es, OwnerStep(true));
    es := Extend(s, es, OwnerStep(true));
    es := Extend(s, es, OwnerStep(false));
  }

  lemma LaunchRetrying(config: Config) returns (es: seq<Event>)
    requires config.autoReconnect
    ensures Legal(Init(config), es) && Exec(Init(config), es) == LaunchedRetrying(config)
  {
    var s := Init(config);
    es := LaunchFails(config);
    es := Extend(s, es, OwnerStep(true));
    es := Extend(s, es, OwnerStep(true));
    es := Extend(s, es, OwnerStep(true));
  }
}

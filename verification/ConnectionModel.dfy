/**
 * The connection manager as an interleaved transition system.
 *
 * Four threads share a state enumeration, a run flag, a client pointer, a retry counter
 * and three thread handles, with no lock: the owner, which calls `start` once and then
 * `stop`, and the heartbeat, monitor and reconnect workers.  Each shared access is a
 * step.  Connect attempts, callbacks and pings may succeed or fail, and an established
 * connection may drop at any moment.
 */
module ConnectionModel {

  datatype ConnectionState = Disconnected | Connecting | Connected | Reconnecting | Closing | Closed

  /** The client pointer: null, or a client whose receiver is running or has stopped. */
  datatype Client = NoClient | Client(running: bool)

  /** `maxTries <= 0` means unlimited. */
  datatype Config = Config(autoReconnect: bool, maxTries: int, heartbeat: bool)

  datatype Owner =
    | Fresh
    // start
    | StartConnecting | StartCreate | StartConnect | StartCallback
    | StartConnected | StartZero | StartHeartbeat | StartMonitor
    | StartFailed | StartReconnecting | StartReconnectThread | StartDisconnected
    // between start and stop
    | Running
    // stop
    | StopClosing | StopFlag | StopClient | JoinHeartbeat | JoinMonitor | JoinReconnect | StopClosed
    | Stopped

  /** Program counters of the monitor and reconnect threads; both can run the retry loop. */
  datatype Worker =
    | Absent | Done
    // monitor_loop
    | MCheck | MSleep | MRecheck | MTest | MLost | MDrop | MBranch | MGiveUp
    // reconnect_loop
    | LCheck | LCount | LLimit | LExceeded | LSleep | LCreate | LConnect | LCallback | LBackoff
    | LConnected | LZero | LHeartbeat | LMonitor

  datatype Heartbeat = HAbsent | HDone | HCheckRun | HCheckState | HSleep | HRecheck | HTest | HSend

  datatype Who = Monitor | Reconnect

  datatype State = State(
    config: Config,
    state: ConnectionState,
    run: bool,
    client: Client,
    count: int,            // reconnect_count_
    owner: Owner,
    heartbeat: Heartbeat,
    monitor: Worker,
    reconnect: Worker,
    heartbeatJoinable: bool,
    monitorJoinable: bool,
    reconnectJoinable: bool,
    // history
    heartbeats: nat,       // heartbeat threads created
    monitors: nat,         // monitor threads created
    losses: nat,           // connection-lost detections
    attempts: nat,         // retries begun since the counter was last zero
    lateTries: nat,        // connect attempts begun after the run flag was cleared
    recovered: bool)       // the monitor's own reconnect has succeeded

  datatype Event =
    | OwnerStep(ok: bool)
    | CallStop
    | HeartbeatStep(ok: bool)
    | WorkerStep(who: Who, ok: bool)
    | Drop                 // the receiver thread of the current client ends

  function Init(config: Config): State {
    State(config, Disconnected, false, NoClient, 0, Fresh, HAbsent, Absent, Absent,
          false, false, false, 0, 0, 0, 0, 0, false)
  }

  function Pc(s: State, who: Who): Worker {
    if who.Monitor? then s.monitor else s.reconnect
  }

  function Goto(s: State, who: Who, pc: Worker): State {
    if who.Monitor? then s.(monitor := pc) else s.(reconnect := pc)
  }

  predicate Enabled(s: State, e: Event) {
    match e
    case OwnerStep(_) =>
      (match s.owner
       case Running => false
       case Stopped => false
       case JoinHeartbeat => s.heartbeatJoinable ==> s.heartbeat.HDone?
       case JoinMonitor => s.monitorJoinable ==> s.monitor.Done?
       case JoinReconnect => s.reconnectJoinable ==> s.reconnect.Done?
       case _ => true)
    case CallStop => s.owner.Running?
    case HeartbeatStep(_) => !s.heartbeat.HAbsent? && !s.heartbeat.HDone?
    case WorkerStep(who, _) => !Pc(s, who).Absent? && !Pc(s, who).Done?
    case Drop => s.client.Client? && s.client.running
  }

  // The owner: where it goes next, and what it stores on the way.

  function OwnerGoes(o: Owner, config: Config, ok: bool): Owner {
    match o
    case Fresh => StartConnecting
    case StartConnecting => StartCreate
    case StartCreate => StartConnect
    case StartConnect => if ok then StartCallback else StartFailed
    case StartCallback => if ok then StartConnected else StartFailed
    case StartConnected => StartZero
    case StartZero => StartHeartbeat
    case StartHeartbeat => StartMonitor
    case StartMonitor => Running
    case StartFailed => if config.autoReconnect then StartReconnecting else StartDisconnected
    case StartReconnecting => StartReconnectThread
    case StartReconnectThread => Running
    case StartDisconnected => Running
    case Running => Running
    case StopClosing => StopFlag
    case StopFlag => StopClient
    case StopClient => JoinHeartbeat
    case JoinHeartbeat => JoinMonitor
    case JoinMonitor => JoinReconnect
    case JoinReconnect => StopClosed
    case StopClosed => Stopped
    case Stopped => Stopped
  }

  function OwnerStores(o: Owner, state: ConnectionState): ConnectionState {
    match o
    case StartConnecting => Connecting
    case StartConnected => Connected
    case StartReconnecting => Reconnecting
    case StartDisconnected => Disconnected
    case StopClosing => Closing
    case StopClosed => Closed
    case _ => state
  }

  function OwnerSetsClient(o: Owner, client: Client, ok: bool): Client {
    match o
    case StartCreate => Client(false)
    case StartConnect => if ok then Client(true) else NoClient
    case StartCallback => if ok then client else NoClient
    case StopClient => if client.Client? then Client(false) else NoClient
    case _ => client
  }

  /** Threads created by `start` and handles joined by `stop`. */
  function OwnerThreads(s: State): State {
    match s.owner
    case StartHeartbeat =>
      if s.config.heartbeat
      then s.(heartbeat := HCheckRun, heartbeatJoinable := true, heartbeats := s.heartbeats + 1)
      else s
    case StartMonitor => s.(monitor := MCheck, monitorJoinable := true, monitors := s.monitors + 1)
    case StartReconnectThread => s.(reconnect := LCheck, reconnectJoinable := true)
    case JoinHeartbeat => s.(heartbeatJoinable := false)
    case JoinMonitor => s.(monitorJoinable := false)
    case JoinReconnect => s.(reconnectJoinable := false)
    case _ => s
  }

  function OwnerNext(s: State, ok: bool): State {
    OwnerThreads(s).(
      owner := OwnerGoes(s.owner, s.config, ok),
      run := if s.owner.Fresh? then true else if s.owner.StopFlag? then false else s.run,
      state := OwnerStores(s.owner, s.state),
      client := OwnerSetsClient(s.owner, s.client, ok),
      count := if s.owner.StartZero? then 0 else s.count,
      attempts := if s.owner.StartZero? then 0 else s.attempts)
  }

  function HeartbeatGoes(s: State, ok: bool): Heartbeat {
    match s.heartbeat
    case HCheckRun => if s.run then HCheckState else HDone
    case HCheckState => if s.state.Connected? then HSleep else HDone
    case HSleep => HRecheck
    case HRecheck => if s.run then HTest else HDone
    case HTest => if s.client.Client? && s.client.running then HSend else HDone
    case HSend => if ok then HCheckRun else HDone
    case HAbsent => HAbsent
    case HDone => HDone
  }

  // The monitor and reconnect threads: where they go next, and what they store on the way.

  function WorkerGoes(w: Worker, config: Config, run: bool, client: Client, count: int, ok: bool): Worker {
    match w
    case Absent => Absent
    case Done => Done
    case MCheck => if run then MSleep else Done
    case MSleep => MRecheck
    case MRecheck => if run then MTest else Done
    case MTest => if client.Client? && !client.running then MLost else MCheck
    case MLost => MDrop
    case MDrop => MBranch
    case MBranch => if config.autoReconnect then LCheck else MGiveUp
    case MGiveUp => Done
    case LCheck => if run then LCount else Done
    case LCount => LLimit
    case LLimit => if config.maxTries > 0 && count > config.maxTries then LExceeded else LSleep
    case LExceeded => Done
    case LSleep => LCreate
    case LCreate => LConnect
    case LConnect => if ok then LCallback else LBackoff
    case LCallback => if ok then LConnected else LBackoff
    case LBackoff => LCheck
    case LConnected => LZero
    case LZero => LHeartbeat
    case LHeartbeat => LMonitor
    case LMonitor => Done
  }

  function WorkerStores(w: Worker, state: ConnectionState): ConnectionState {
    match w
    case MLost => Reconnecting
    case MGiveUp => Disconnected
    case LExceeded => Disconnected
    case LConnected => Connected
    case _ => state
  }

  function WorkerSetsClient(w: Worker, client: Client, ok: bool): Client {
    match w
    case MDrop => NoClient
    case LCreate => Client(false)
    case LConnect => if ok then Client(true) else NoClient
    case LCallback => if ok then client else NoClient
    case _ => client
  }

  function WorkerCounts(w: Worker, count: int): int {
    if w.LCount? then count + 1 else if w.LZero? then 0 else count
  }

  function AttemptsAfter(w: Worker, attempts: nat): nat {
    if w.LCreate? then attempts + 1 else if w.LZero? then 0 else attempts
  }

  /** Threads created at the end of a successful retry, guarded by their handles. */
  function WorkerThreads(s: State, w: Worker): State {
    if w.LHeartbeat? && s.config.heartbeat && !s.heartbeatJoinable then
      s.(heartbeat := HCheckRun, heartbeatJoinable := true, heartbeats := s.heartbeats + 1)
    else if w.LMonitor? && !s.monitorJoinable then
      s.(monitor := MCheck, monitorJoinable := true, monitors := s.monitors + 1)
    else s
  }

  function WorkerNext(s: State, who: Who, ok: bool): State {
    var w := Pc(s, who);
    WorkerThreads(Goto(s, who, WorkerGoes(w, s.config, s.run, s.client, s.count, ok)), w).(
      state := WorkerStores(w, s.state),
      client := WorkerSetsClient(w, s.client, ok),
      count := WorkerCounts(w, s.count),
      attempts := AttemptsAfter(w, s.attempts),
      losses := if w.MLost? then s.losses + 1 else s.losses,
      lateTries := if w.LCreate? && !s.run then s.lateTries + 1 else s.lateTries,
      recovered := s.recovered || (w.LMonitor? && who.Monitor?))
  }

  function Apply(s: State, e: Event): State
    requires Enabled(s, e)
  {
    match e
    case OwnerStep(ok) => OwnerNext(s, ok)
    case CallStop => s.(owner := StopClosing)
    case HeartbeatStep(ok) => s.(heartbeat := HeartbeatGoes(s, ok))
    case WorkerStep(who, ok) => WorkerNext(s, who, ok)
    case Drop => s.(client := Client(false))
  }

  ghost predicate Legal(s: State, es: seq<Event>)
    decreases |es|
  {
    es == [] || (Enabled(s, es[0]) && Legal(Apply(s, es[0]), es[1..]))
  }

  ghost function Exec(s: State, es: seq<Event>): State
    requires Legal(s, es)
    decreases |es|
  {
    if es == [] then s else Exec(Apply(s, es[0]), es[1..])
  }

  /** Runs are extended at the end. */
  lemma {:induction false} Extend(s: State, es: seq<Event>, e: Event) returns (es': seq<Event>)
    requires Legal(s, es) && Enabled(Exec(s, es), e)
    ensures es' == es + [e] && Legal(s, es') && Exec(s, es') == Apply(Exec(s, es), e)
    decreases |es|
  {
    es' := es + [e];
    if es == [] {
      assert Legal(Apply(s, e), []);
    } else {
      var rest := Extend(Apply(s, es[0]), es[1..], e);
      assert es'[1..] == rest;
    }
  }

  /** A run followed by another from where it leads. */
  lemma {:induction false} Concat(s: State, es: seq<Event>, more: seq<Event>)
    requires Legal(s, es) && Legal(Exec(s, es), more)
    ensures Legal(s, es + more) && Exec(s, es + more) == Exec(Exec(s, es), more)
    decreases |es|
  {
    if es == [] {
      assert es + more == more;
    } else {
      Concat(Apply(s, es[0]), es[1..], more);
      assert (es + more)[1..] == es[1..] + more;
    }
  }

  /** A run that begins with `e`. */
  lemma Prepend(s: State, e: Event, more: seq<Event>) returns (es: seq<Event>)
    requires Enabled(s, e) && Legal(Apply(s, e), more)
    ensures es == [e] + more && Legal(s, es) && Exec(s, es) == Exec(Apply(s, e), more)
  {
    es := [e] + more;
    assert es[1..] == more;
  }

  // ---- What every step keeps ----
  //
  // The invariant is stated field by field: what holds of the client pointer, the state,
  // the counter and the history, given where the one worker that owns the client pointer
  // is.

  predicate Starting(o: Owner) {
    match o
    case Fresh | Running => false
    case StopClosing | StopFlag | StopClient | JoinHeartbeat | JoinMonitor | JoinReconnect | StopClosed => false
    case Stopped => false
    case _ => true
  }

  /** `stop` has not yet moved the state to Closing. */
  predicate BeforeStop(o: Owner) {
    Starting(o) || o.Fresh? || o.Running? || o.StopClosing?
  }

  /** Where the code has the run flag set. */
  predicate RunFlag(o: Owner) {
    Starting(o) || o.Running? || o.StopClosing? || o.StopFlag?
  }

  /** Inside the retry loop of `reconnect_loop`. */
  predicate Retrying(w: Worker) {
    match w
    case Absent | Done => false
    case MCheck | MSleep | MRecheck | MTest | MLost | MDrop | MBranch | MGiveUp => false
    case _ => true
  }

  predicate Polling(w: Worker) {
    w.MCheck? || w.MSleep? || w.MRecheck? || w.MTest? || w.MLost?
  }

  /** Between the detection of a loss and the successful end of a retry. */
  predicate Recovering(w: Worker) {
    match w
    case MDrop | MBranch | MGiveUp => true
    case LZero | LHeartbeat | LMonitor => false
    case _ => Retrying(w)
  }

  predicate Succeeded(w: Worker) {
    w.LZero? || w.LHeartbeat? || w.LMonitor?
  }

  predicate HoldsNoClient(w: Worker) {
    match w
    case MBranch | MGiveUp => true
    case LCheck | LCount | LLimit | LExceeded | LSleep | LCreate | LBackoff => true
    case _ => false
  }

  predicate HoldsClient(w: Worker) {
    Polling(w) || Succeeded(w) || w.MDrop? || w.LConnect? || w.LCallback? || w.LConnected?
  }

  /** Past the run-flag test of the retry loop, with the connect attempt still ahead. */
  predicate Committed(w: Worker) {
    w.LCount? || w.LLimit? || w.LSleep? || w.LCreate?
  }

  predicate Finished(w: Worker) {
    w.Absent? || w.Done?
  }

  /** The worker, if any, that owns the client pointer. */
  function Active(s: State): Worker {
    if s.monitor.Absent? then s.reconnect else s.monitor
  }

  predicate MonitorFits(o: Owner, m: Worker, joinable: bool) {
    && (o.Fresh? || Starting(o) ==> m.Absent?)
    && (!joinable ==> Finished(m))
    && (m.Absent? ==> !joinable)
    && (o.JoinReconnect? || o.StopClosed? || o.Stopped? ==> Finished(m) || m.MCheck?)
  }

  predicate ReconnectFits(o: Owner, m: Worker, r: Worker, joinable: bool) {
    && (Retrying(r) || Finished(r))
    && (!m.Absent? ==> Finished(r))
    && (o.Fresh? || Starting(o) ==> r.Absent?)
    && (!joinable ==> Finished(r))
    && (r.Absent? ==> !joinable)
    && (o.StopClosed? || o.Stopped? ==> !joinable)
  }

  /** Where `stop` has joined the heartbeat. */
  predicate PastHeartbeatJoin(o: Owner) {
    o.JoinMonitor? || o.JoinReconnect? || o.StopClosed? || o.Stopped?
  }

  predicate HeartbeatFits(o: Owner, h: Heartbeat, joinable: bool, heartbeats: nat) {
    && (heartbeats == 0 <==> h.HAbsent?)
    && (if PastHeartbeatJoin(o) then heartbeats <= (if joinable then 2 else 1)
        else heartbeats == (if joinable then 1 else 0))
    && (o.Fresh? || (Starting(o) && !o.StartMonitor?) ==> h.HAbsent?)
    && (!joinable ==> h.HAbsent? || h.HDone?)
    && (h.HAbsent? ==> !joinable)
  }

  predicate ClientFits(o: Owner, w: Worker, client: Client) {
    && (HoldsNoClient(w) ==> client.NoClient?)
    && (HoldsClient(w) ==> client.Client?)
    && (w.MLost? || w.MDrop? ==> client == Client(false))
    && (match o
        case StartConnect | StartCallback | StartConnected | StartZero | StartHeartbeat | StartMonitor =>
          client.Client?
        case _ => Starting(o) || o.Fresh? ==> client.NoClient?)
  }

  /** Before `stop`, the state is determined by where the threads are. */
  predicate StateFits(o: Owner, w: Worker, recovered: bool, state: ConnectionState) {
    && (o.StartZero? || o.StartHeartbeat? || o.StartMonitor? ==> state.Connected?)
    && (Starting(o) || o.Fresh? ==> state.Connected? ==> o.StartZero? || o.StartHeartbeat? || o.StartMonitor?)
    && (o.StartReconnectThread? ==> state.Reconnecting?)
    && (BeforeStop(o) && (Polling(w) || Succeeded(w) || recovered) ==> state.Connected?)
    && (BeforeStop(o) && Recovering(w) ==> state.Reconnecting?)
    && (Recovering(w) ==> !state.Connected?)
    && (o.Stopped? ==> state.Closed?)
  }

  predicate HistoryFits(o: Owner, m: Worker, monitors: nat, losses: nat, recovered: bool) {
    && monitors == (if m.Absent? then 0 else 1)
    && losses <= 1
    && (m.Absent? || Polling(m) ==> losses == 0)
    && (RunFlag(o) && !m.Absent? && !Polling(m) ==> losses == 1)
    && (recovered ==> m.Done?)
  }

  predicate LateFits(o: Owner, w: Worker, lateTries: nat) {
    && (RunFlag(o) || o.Fresh? || Committed(w) ==> lateTries == 0)
    && lateTries <= 1
  }

  /** The retry counter counts the attempts begun since the last success. */
  predicate CountFits(w: Worker, maxTries: int, count: int, attempts: nat) {
    && (!w.Done? ==>
        count == attempts + (if w.LLimit? || w.LExceeded? || w.LSleep? || w.LCreate? then 1 else 0))
    && (Polling(w) || w.Absent? || w.MDrop? || w.MBranch? || w.MGiveUp? || w.LHeartbeat? || w.LMonitor?
        ==> count == 0)
    && (maxTries > 0 ==>
        && attempts <= maxTries
        && count <= maxTries + 1
        && (w.LSleep? || w.LCreate? ==> count <= maxTries))
    && (w.LExceeded? ==> 0 < maxTries == attempts)
  }

  predicate ThreadsFit(s: State) {
    && s.run == RunFlag(s.owner)
    && MonitorFits(s.owner, s.monitor, s.monitorJoinable)
    && ReconnectFits(s.owner, s.monitor, s.reconnect, s.reconnectJoinable)
    && HeartbeatFits(s.owner, s.heartbeat, s.heartbeatJoinable, s.heartbeats)
    && (s.heartbeats > 0 ==> s.config.heartbeat)
  }

  predicate SharedFits(s: State, w: Worker) {
    && ClientFits(s.owner, w, s.client)
    && StateFits(s.owner, w, s.recovered, s.state)
    && (s.state.Connected? ==> s.client.Client?)
  }

  predicate HistoriesFit(s: State, w: Worker) {
    && HistoryFits(s.owner, s.monitor, s.monitors, s.losses, s.recovered)
    && LateFits(s.owner, w, s.lateTries)
    && CountFits(w, s.config.maxTries, s.count, s.attempts)
  }

  predicate Inv(s: State) {
    ThreadsFit(s) && SharedFits(s, Active(s)) && HistoriesFit(s, Active(s))
  }

  lemma InitInv(config: Config)
    ensures Inv(Init(config))
  {}

  // One small lemma a field: the worker that owns the client pointer takes a step.

  lemma WorkerFitsClient(o: Owner, w: Worker, c: Config, run: bool, client: Client, count: int, ok: bool)
    requires ClientFits(o, w, client) && !Starting(o) && !o.Fresh?
    ensures ClientFits(o, WorkerGoes(w, c, run, client, count, ok), WorkerSetsClient(w, client, ok))
  {}

  lemma WorkerFitsState(o: Owner, w: Worker, c: Config, run: bool, client: Client, count: int, ok: bool,
                        recovered: bool, state: ConnectionState)
    requires StateFits(o, w, recovered, state) && !Starting(o) && !o.Fresh?
    requires !recovered && !Finished(w) && (o.Stopped? ==> w.MCheck? && !run)
    ensures StateFits(o, WorkerGoes(w, c, run, client, count, ok), w.LMonitor?, WorkerStores(w, state))
  {}

  lemma WorkerFitsCount(w: Worker, c: Config, run: bool, client: Client, count: int, attempts: nat, ok: bool)
    requires CountFits(w, c.maxTries, count, attempts)
    ensures CountFits(WorkerGoes(w, c, run, client, count, ok), c.maxTries,
                      WorkerCounts(w, count), AttemptsAfter(w, attempts))
  {}

  lemma WorkerFitsLate(o: Owner, w: Worker, c: Config, run: bool, client: Client, count: int, ok: bool, late: nat)
    requires LateFits(o, w, late) && run == RunFlag(o) && !o.Fresh?
    ensures LateFits(o, WorkerGoes(w, c, run, client, count, ok), if w.LCreate? && !run then late + 1 else late)
  {}

  /** The worker that owns the client pointer after an owner step. */
  function WorkerAfterOwner(o: Owner, w: Worker): Worker {
    if o.StartMonitor? then MCheck else if o.StartReconnectThread? then LCheck else w
  }

  lemma OwnerFitsClient(o: Owner, w: Worker, c: Config, client: Client, ok: bool)
    requires ClientFits(o, w, client) && (Starting(o) || o.Fresh? ==> w.Absent?)
    ensures ClientFits(OwnerGoes(o, c, ok), WorkerAfterOwner(o, w), OwnerSetsClient(o, client, ok))
  {}

  lemma OwnerFitsState(o: Owner, w: Worker, c: Config, client: Client, ok: bool,
                       recovered: bool, state: ConnectionState)
    requires StateFits(o, w, recovered, state) && !o.Running?
    requires Starting(o) || o.Fresh? ==> w.Absent? && !recovered
    requires state.Connected? ==> client.Client?
    requires ClientFits(o, w, client)
    ensures StateFits(OwnerGoes(o, c, ok), WorkerAfterOwner(o, w), recovered, OwnerStores(o, state))
    ensures OwnerStores(o, state).Connected? ==> OwnerSetsClient(o, client, ok).Client?
  {}

  lemma OwnerKeepsMonitor(s: State, ok: bool)
    requires ThreadsFit(s) && Enabled(s, OwnerStep(ok))
    ensures var s' := OwnerNext(s, ok);
      && s'.run == RunFlag(s'.owner)
      && MonitorFits(s'.owner, s'.monitor, s'.monitorJoinable)
      && Active(s') == WorkerAfterOwner(s.owner, Active(s))
  {}

  lemma OwnerKeepsReconnect(s: State, ok: bool)
    requires ThreadsFit(s) && Enabled(s, OwnerStep(ok))
    ensures var s' := OwnerNext(s, ok);
      ReconnectFits(s'.owner, s'.monitor, s'.reconnect, s'.reconnectJoinable)
  {}

  lemma OwnerKeepsHeartbeat(s: State, ok: bool)
    requires ThreadsFit(s) && Enabled(s, OwnerStep(ok))
    ensures var s' := OwnerNext(s, ok);
      && HeartbeatFits(s'.owner, s'.heartbeat, s'.heartbeatJoinable, s'.heartbeats)
      && (s'.heartbeats > 0 ==> s'.config.heartbeat)
  {}

  lemma OwnerKeepsShared(s: State, ok: bool)
    requires Inv(s) && Enabled(s, OwnerStep(ok))
    ensures SharedFits(OwnerNext(s, ok), WorkerAfterOwner(s.owner, Active(s)))
  {
    OwnerFitsClient(s.owner, Active(s), s.config, s.client, ok);
    OwnerFitsState(s.owner, Active(s), s.config, s.client, ok, s.recovered, s.state);
  }

  lemma OwnerKeepsHistories(s: State, ok: bool)
    requires ThreadsFit(s) && HistoriesFit(s, Active(s)) && Enabled(s, OwnerStep(ok))
    ensures HistoriesFit(OwnerNext(s, ok), WorkerAfterOwner(s.owner, Active(s)))
  {}

  lemma HeartbeatKeepsInv(s: State, ok: bool)
    requires Inv(s) && Enabled(s, HeartbeatStep(ok))
    ensures Inv(Apply(s, HeartbeatStep(ok)))
  {}

  /** The worker that owns the client pointer after a worker step. */
  function WorkerAfterWorker(s: State, w: Worker, ok: bool): Worker {
    if w.LMonitor? && !s.monitorJoinable then MCheck
    else WorkerGoes(w, s.config, s.run, s.client, s.count, ok)
  }

  lemma OnlyActiveMoves(s: State, who: Who, ok: bool)
    requires ThreadsFit(s) && Enabled(s, WorkerStep(who, ok))
    ensures Pc(s, who) == Active(s) && !Starting(s.owner) && !s.owner.Fresh?
    ensures who.Reconnect? ==> s.monitor.Absent? && Retrying(s.reconnect)
  {}

  lemma WorkerKeepsMonitor(s: State, who: Who, ok: bool)
    requires ThreadsFit(s) && Enabled(s, WorkerStep(who, ok))
    ensures var s' := WorkerNext(s, who, ok);
      && s'.run == RunFlag(s'.owner)
      && MonitorFits(s'.owner, s'.monitor, s'.monitorJoinable)
      && Active(s') == WorkerAfterWorker(s, Pc(s, who), ok)
  {
    OnlyActiveMoves(s, who, ok);
  }

  lemma WorkerKeepsReconnect(s: State, who: Who, ok: bool)
    requires ThreadsFit(s) && Enabled(s, WorkerStep(who, ok))
    ensures var s' := WorkerNext(s, who, ok);
      ReconnectFits(s'.owner, s'.monitor, s'.reconnect, s'.reconnectJoinable)
  {
    OnlyActiveMoves(s, who, ok);
  }

  lemma WorkerKeepsHeartbeat(s: State, who: Who, ok: bool)
    requires ThreadsFit(s) && Enabled(s, WorkerStep(who, ok))
    ensures var s' := WorkerNext(s, who, ok);
      && HeartbeatFits(s'.owner, s'.heartbeat, s'.heartbeatJoinable, s'.heartbeats)
      && (s'.heartbeats > 0 ==> s'.config.heartbeat)
  {
    OnlyActiveMoves(s, who, ok);
  }

  lemma WorkerKeepsThreads(s: State, who: Who, ok: bool)
    requires ThreadsFit(s) && Enabled(s, WorkerStep(who, ok))
    ensures ThreadsFit(WorkerNext(s, who, ok))
    ensures Active(WorkerNext(s, who, ok)) == WorkerAfterWorker(s, Pc(s, who), ok)
  {
    WorkerKeepsMonitor(s, who, ok);
    WorkerKeepsReconnect(s, who, ok);
    WorkerKeepsHeartbeat(s, who, ok);
  }

  lemma WorkerKeepsShared(s: State, who: Who, ok: bool)
    requires Inv(s) && Enabled(s, WorkerStep(who, ok))
    ensures SharedFits(WorkerNext(s, who, ok), WorkerAfterWorker(s, Pc(s, who), ok))
  {
    var w := Pc(s, who);
    OnlyActiveMoves(s, who, ok);
    WorkerFitsClient(s.owner, w, s.config, s.run, s.client, s.count, ok);
    WorkerFitsState(s.owner, w, s.config, s.run, s.client, s.count, ok, s.recovered, s.state);
  }

  lemma WorkerKeepsCounts(s: State, who: Who, ok: bool)
    requires Inv(s) && Enabled(s, WorkerStep(who, ok))
    ensures var s', w' := WorkerNext(s, who, ok), WorkerAfterWorker(s, Pc(s, who), ok);
      LateFits(s'.owner, w', s'.lateTries) && CountFits(w', s'.config.maxTries, s'.count, s'.attempts)
  {
    var w := Pc(s, who);
    OnlyActiveMoves(s, who, ok);
    WorkerFitsCount(w, s.config, s.run, s.client, s.count, s.attempts, ok);
    WorkerFitsLate(s.owner, w, s.config, s.run, s.client, s.count, ok, s.lateTries);
  }

  lemma WorkerKeepsHistory(s: State, who: Who, ok: bool)
    requires ThreadsFit(s) && Enabled(s, WorkerStep(who, ok))
    requires HistoryFits(s.owner, s.monitor, s.monitors, s.losses, s.recovered)
    ensures var s' := WorkerNext(s, who, ok);
      HistoryFits(s'.owner, s'.monitor, s'.monitors, s'.losses, s'.recovered)
  {
    OnlyActiveMoves(s, who, ok);
  }

  lemma StepKeepsInv(s: State, e: Event)
    requires Inv(s) && Enabled(s, e)
    ensures Inv(Apply(s, e))
  {
    match e
    case OwnerStep(ok) =>
      OwnerKeepsMonitor(s, ok);
      OwnerKeepsReconnect(s, ok);
      OwnerKeepsHeartbeat(s, ok);
      OwnerKeepsShared(s, ok);
      OwnerKeepsHistories(s, ok);
    case HeartbeatStep(ok) => HeartbeatKeepsInv(s, ok);
    case WorkerStep(who, ok) =>
      WorkerKeepsThreads(s, who, ok);
      WorkerKeepsShared(s, who, ok);
      WorkerKeepsCounts(s, who, ok);
      WorkerKeepsHistory(s, who, ok);
    case CallStop =>
    case Drop =>
  }
}

/**
 * Exactly when a client can outlive `stop`.
 */
module ConnectionStop {
  import opened ConnectionModel
  import opened ConnectionResults

  /** The limit test lets a counter value pass. */
  predicate WithinLimit(c: Config, count: int) {
    c.maxTries > 0 ==> count <= c.maxTries
  }

  /** A retry is past its run-flag test, will pass its limit test, and has not finished its attempt. */
  predicate AttemptAhead(s: State) {
    match Active(s)
    case LCount => WithinLimit(s.config, s.count + 1)
    case LLimit => WithinLimit(s.config, s.count)
    case LSleep | LCreate | LConnect => true
    case _ => false
  }

  /** A continuation in which `stop` returns with a live client. */
  ghost predicate LeavesLiveClient(s: State, more: seq<Event>) {
    Legal(s, more) && Exec(s, more).owner.Stopped? && Exec(s, more).client == Client(true)
  }

  // ---- Without an attempt ahead no client outlives `stop` ----

  /** No client is live, or `stop` is about to close it, and no attempt is ahead. */
  predicate Doomed(s: State) {
    FlagCleared(s) && !AttemptAhead(s) && (s.client == Client(true) ==> s.owner.StopClient?)
  }

  lemma DoomedStep(s: State, e: Event)
    requires Inv(s) && Enabled(s, e) && Doomed(s)
    ensures Doomed(Apply(s, e))
  {
    FlagStaysCleared(s, e);
    match e
    case WorkerStep(who, ok) => DoomedWorkerStep(s, who, ok);
    case OwnerStep(ok) => OwnerKeepsMonitor(s, ok);
    case _ =>
  }

  lemma DoomedWorkerStep(s: State, who: Who, ok: bool)
    requires Inv(s) && Enabled(s, WorkerStep(who, ok)) && Doomed(s)
    ensures Doomed(WorkerNext(s, who, ok))
  {
    OnlyActiveMoves(s, who, ok);
    WorkerKeepsThreads(s, who, ok);
  }

  lemma {:induction false} DoomedStays(s: State, es: seq<Event>)
    requires Inv(s) && Legal(s, es) && Doomed(s)
    ensures Doomed(Exec(s, es))
    decreases |es|
  {
    if es != [] {
      StepKeepsInv(s, es[0]);
      DoomedStep(s, es[0]);
      DoomedStays(Apply(s, es[0]), es[1..]);
    }
  }

  // ---- An attempt ahead can outlive `stop` ----

  /** An attempt ahead can be driven to success by its own thread. */
  lemma {:induction false} DriveToSuccess(s: State, who: Who) returns (es: seq<Event>)
    requires Inv(s) && AttemptAhead(s) && Pc(s, who) == Active(s)
    ensures Legal(s, es) && Exec(s, es).client == Client(true) && Exec(s, es).owner == s.owner
    decreases WorkerRank(Active(s))
  {
    var e := WorkerStep(who, true);
    var rest := [];
    StepKeepsInv(s, e);
    if !Active(s).LConnect? {
      StillAhead(s, who);
      rest := DriveToSuccess(Apply(s, e), who);
    }
    es := Prepend(s, e, rest);
  }

  lemma StillAhead(s: State, who: Who)
    requires Inv(s) && AttemptAhead(s) && Pc(s, who) == Active(s) && !Active(s).LConnect?
    ensures var t := WorkerNext(s, who, true);
      && AttemptAhead(t) && Pc(t, who) == Active(t)
      && WorkerRank(Active(t)) < WorkerRank(Active(s))
  {}

  /** The next step, a successful one: a worker's, or the owner's if all workers have finished. */
  function NextToFinish(s: State): Event {
    if Enabled(s, HeartbeatStep(true)) then HeartbeatStep(true)
    else if Enabled(s, WorkerStep(Monitor, true)) then WorkerStep(Monitor, true)
    else if Enabled(s, WorkerStep(Reconnect, true)) then WorkerStep(Reconnect, true)
    else OwnerStep(true)
  }

  /** Once `stop` is past closing the client, successful steps keep a live client live. */
  lemma FinishingKeepsClient(s: State)
    requires Inv(s) && FlagCleared(s) && s.client == Client(true) && !s.owner.StopClient? && !Quiet(s)
    ensures var e := NextToFinish(s);
      && Enabled(s, e) && !e.Drop?
      && Apply(s, e).client == Client(true) && !Apply(s, e).owner.StopClient?
  {
    ReconnectIsActive(s);
  }

  lemma {:induction false} FinishWithLiveClient(s: State) returns (es: seq<Event>)
    requires Inv(s) && FlagCleared(s) && s.client == Client(true) && !s.owner.StopClient?
    ensures LeavesLiveClient(s, es) && Quiet(Exec(s, es))
    decreases Measure(s)
  {
    if Quiet(s) {
      es := [];
    } else {
      var e := NextToFinish(s);
      FinishingKeepsClient(s);
      StepKeepsInv(s, e);
      FlagStaysCleared(s, e);
      StepLowersMeasure(s, e);
      var rest := FinishWithLiveClient(Apply(s, e));
      es := Prepend(s, e, rest);
    }
  }

  /** An attempt still ahead when `stop` is past closing the client. */
  lemma AttemptOutlivesStop(s: State) returns (es: seq<Event>)
    requires Inv(s) && FlagCleared(s) && AttemptAhead(s) && !s.owner.StopClient?
    ensures LeavesLiveClient(s, es) && Quiet(Exec(s, es))
  {
    es := DriveToSuccess(s, if s.monitor.Absent? then Reconnect else Monitor);
    RunKeepsInv(s, es);
    FlagStays(s, es);
    var rest := FinishWithLiveClient(Exec(s, es));
    Concat(s, es, rest);
    es := es + rest;
  }

  /** The owner steps past closing the client, the attempt still ahead. */
  lemma AttemptOutlivesClose(s: State) returns (es: seq<Event>)
    requires Inv(s) && AttemptAhead(s) && s.owner.StopClient?
    ensures LeavesLiveClient(s, es) && Quiet(Exec(s, es))
  {
    var e := OwnerStep(true);
    StepKeepsInv(s, e);
    OwnerKeepsMonitor(s, true);
    FlagStaysCleared(s, e);
    es := AttemptOutlivesStop(Apply(s, e));
    es := Prepend(s, e, es);
  }

  /**
   * Once the flag is cleared, `stop` can return with a live client exactly if a retry was
   * past its run-flag test with its attempt ahead, or a client is live that `stop` is too
   * late to close.
   */
  lemma StopLeavesLiveClientExactlyIfAttemptAhead(config: Config, es: seq<Event>)
    requires Legal(Init(config), es) && FlagCleared(Exec(Init(config), es))
    ensures var s := Exec(Init(config), es);
      (exists more :: LeavesLiveClient(s, more)) <==>
      AttemptAhead(s) || (s.client == Client(true) && !s.owner.StopClient?)
  {
    var s := Exec(Init(config), es);
    ReachableInv(config, es);
    if Doomed(s) {
      forall more | Legal(s, more)
        ensures !LeavesLiveClient(s, more)
      {
        DoomedStays(s, more);
      }
    } else if s.owner.StopClient? {
      var more := AttemptOutlivesClose(s);
    } else if s.client == Client(true) {
      var more := FinishWithLiveClient(s);
    } else {
      var more := AttemptOutlivesStop(s);
    }
  }

  // ---- Seen from the call of `stop` ----

  /** The flag is set and `start` has returned. */
  predicate Serving(o: Owner) {
    o.Running? || o.StopClosing? || o.StopFlag?
  }

  /**
   * Some worker can still begin, or is in, a connect attempt: a monitor polls or is still
   * to be created, or the retry in progress has an attempt left after the current one.
   */
  predicate CanRetry(s: State) {
    MayRetry(Active(s), s.config, s.count, s.monitor.Absent?)
  }

  predicate MayRetry(w: Worker, c: Config, count: int, noMonitor: bool) {
    match w
    case Absent | Done | MGiveUp | LExceeded => false
    case MCheck | MSleep | MRecheck | MTest | MLost | MDrop | MBranch => c.autoReconnect
    case LCheck | LCount | LBackoff => WithinLimit(c, count + 1)
    case LLimit => WithinLimit(c, count)
    case LSleep | LCreate | LConnect => true
    case LCallback => noMonitor || WithinLimit(c, count + 1)
    case LConnected | LZero | LHeartbeat | LMonitor => noMonitor
  }

  ghost predicate Configured(s: State) {
    RetryIsConfigured(s.config, s.owner, s.monitor, s.reconnect)
  }

  /** Nobody can retry, so no client will outlive `stop`. */
  predicate Barren(s: State) {
    if Serving(s.owner) then !CanRetry(s) else Doomed(s)
  }

  lemma BarrenStep(s: State, e: Event)
    requires Inv(s) && Enabled(s, e) && Barren(s)
    ensures Barren(Apply(s, e))
  {
    if !Serving(s.owner) {
      DoomedStep(s, e);
    } else {
      match e
      case WorkerStep(who, ok) => BarrenWorkerStep(s, who, ok);
      case OwnerStep(ok) => BarrenOwnerStep(s, ok);
      case _ =>
    }
  }

  lemma BarrenOwnerStep(s: State, ok: bool)
    requires Inv(s) && Enabled(s, OwnerStep(ok)) && Serving(s.owner) && !CanRetry(s)
    ensures Barren(OwnerNext(s, ok))
  {
    OwnerKeepsMonitor(s, ok);
  }

  lemma BarrenWorkerStep(s: State, who: Who, ok: bool)
    requires Inv(s) && Enabled(s, WorkerStep(who, ok)) && Serving(s.owner) && !CanRetry(s)
    ensures var t := WorkerNext(s, who, ok); Serving(t.owner) && !CanRetry(t)
  {
    OnlyActiveMoves(s, who, ok);
    WorkerKeepsThreads(s, who, ok);
  }

  lemma {:induction false} BarrenStays(s: State, es: seq<Event>)
    requires Inv(s) && Legal(s, es) && Barren(s)
    ensures Barren(Exec(s, es))
    decreases |es|
  {
    if es != [] {
      StepKeepsInv(s, es[0]);
      BarrenStep(s, es[0]);
      BarrenStays(Apply(s, es[0]), es[1..]);
    }
  }

  /** Worker steps up to the next attempt. */
  function RetryRank(w: Worker): nat {
    match w
    case LCheck => 1
    case LBackoff | MBranch => 2
    case MDrop => 3
    case MLost => 4
    case MTest => 5
    case MRecheck => 6
    case MSleep => 7
    case MCheck => 8
    case LMonitor => 9
    case LHeartbeat => 10
    case LZero => 11
    case LConnected => 12
    case LCallback => 13
    case _ => 0
  }

  /** A step towards an attempt: the connection drops under a polling monitor, and a monitor's callback fails. */
  function NextToAttempt(s: State): Event {
    if s.client == Client(true) && Polling(s.monitor) then Drop
    else if s.monitor.Absent? then WorkerStep(Reconnect, true)
    else WorkerStep(Monitor, false)
  }

  lemma AttemptComesNearer(s: State)
    requires Inv(s) && Configured(s) && Serving(s.owner) && CanRetry(s) && !AttemptAhead(s)
    ensures var e := NextToAttempt(s);
      && Enabled(s, e) && Apply(s, e).owner == s.owner && CanRetry(Apply(s, e))
      && (if e.Drop? then Active(Apply(s, e)) == Active(s) && Apply(s, e).client == Client(false)
          else RetryRank(Active(Apply(s, e))) < RetryRank(Active(s)))
  {
    match NextToAttempt(s)
    case WorkerStep(who, ok) => WorkerComesNearer(s, who, ok);
    case _ =>
  }

  lemma WorkerComesNearer(s: State, who: Who, ok: bool)
    requires Inv(s) && Configured(s) && Serving(s.owner) && CanRetry(s) && !AttemptAhead(s)
    requires NextToAttempt(s) == WorkerStep(who, ok)
    ensures Enabled(s, WorkerStep(who, ok))
    ensures var t := WorkerNext(s, who, ok);
      t.owner == s.owner && CanRetry(t) && RetryRank(Active(t)) < RetryRank(Active(s))
  {
    WorkerKeepsMonitor(s, who, ok);
    if !Active(s).LMonitor? {
      RetryGoesOn(Active(s), s.config, s.client, s.count, s.monitor.Absent?);
    }
  }

  lemma RetryGoesOn(w: Worker, c: Config, client: Client, count: int, noMonitor: bool)
    requires MayRetry(w, c, count, noMonitor) && RetryRank(w) > 0 && !w.LMonitor?
    requires Polling(w) || w.MDrop? || w.MBranch? ==> count == 0
    requires Polling(w) ==> client == Client(false)
    ensures var w' := WorkerGoes(w, c, true, client, count, noMonitor);
      MayRetry(w', c, WorkerCounts(w, count), noMonitor) && RetryRank(w') < RetryRank(w)
  {}

  lemma {:induction false} DriveToAttempt(s: State) returns (es: seq<Event>)
    requires Inv(s) && Configured(s) && Serving(s.owner) && CanRetry(s)
    ensures Legal(s, es) && AttemptAhead(Exec(s, es)) && Serving(Exec(s, es).owner)
    decreases RetryRank(Active(s)), s.client == Client(true)
  {
    if AttemptAhead(s) {
      es := [];
    } else {
      var e := NextToAttempt(s);
      AttemptComesNearer(s);
      StepKeepsInv(s, e);
      StepKeepsConfig(s, e);
      StepKeepsConfigured(s, e);
      var rest := DriveToAttempt(Apply(s, e));
      es := Prepend(s, e, rest);
    }
  }

  /** The threads that may retry, and the counter, are as they were. */
  predicate SameRetry(s: State, t: State) {
    && t.config == s.config && t.count == s.count && t.monitor == s.monitor && t.reconnect == s.reconnect
    && t.monitorJoinable == s.monitorJoinable
  }

  /** `stop` is called and comes to close the client before anyone else moves. */
  lemma {:induction false} DriveToStopClient(s: State) returns (es: seq<Event>)
    requires Inv(s) && (Serving(s.owner) || s.owner.StopClient?)
    ensures Legal(s, es)
    ensures var t := Exec(s, es); Inv(t) && t.owner.StopClient? && SameRetry(s, t) && t.heartbeats == s.heartbeats
    decreases match s.owner case Running => 3 case StopClosing => 2 case StopFlag => 1 case _ => 0
  {
    if s.owner.StopClient? {
      es := [];
    } else {
      var e := if s.owner.Running? then CallStop else OwnerStep(true);
      StepKeepsInv(s, e);
      StoppingLeavesRetry(s, e);
      es := DriveToStopClient(Apply(s, e));
      es := Prepend(s, e, es);
    }
  }

  lemma StoppingLeavesRetry(s: State, e: Event)
    requires Serving(s.owner) && e == if s.owner.Running? then CallStop else OwnerStep(true)
    ensures Enabled(s, e)
    ensures var t := Apply(s, e);
      && SameRetry(s, t) && t.heartbeats == s.heartbeats
      && t.owner == if s.owner.Running? then StopClosing else if s.owner.StopClosing? then StopFlag else StopClient
  {}

  /** `stop` comes to close the client while the attempt is still ahead. */
  lemma StopDuringAttempt(s: State) returns (es: seq<Event>)
    requires Inv(s) && AttemptAhead(s) && Serving(s.owner)
    ensures LeavesLiveClient(s, es) && Quiet(Exec(s, es))
  {
    es := DriveToStopClient(s);
    var rest := AttemptOutlivesClose(Exec(s, es));
    Concat(s, es, rest);
    es := es + rest;
  }

  /**
   * A `stop` called now, or not yet past the run flag, can leave a live client behind
   * exactly if some worker can still begin a connect attempt.
   */
  lemma StopCanLeaveLiveClientExactlyIfRetryPossible(config: Config, es: seq<Event>)
    requires Legal(Init(config), es) && Serving(Exec(Init(config), es).owner)
    ensures (exists more :: LeavesLiveClient(Exec(Init(config), es), more)) <==> CanRetry(Exec(Init(config), es))
  {
    var s := Exec(Init(config), es);
    ReachableInv(config, es);
    StateFollowsTheThreads(config, es);
    RunKeepsConfig(Init(config), es);
    if CanRetry(s) {
      var more := RetryOutlivesStop(s);
    } else {
      forall more | Legal(s, more)
        ensures !LeavesLiveClient(s, more)
      {
        BarrenStays(s, more);
      }
    }
  }

  lemma RetryOutlivesStop(s: State) returns (es: seq<Event>)
    requires Inv(s) && Configured(s) && Serving(s.owner) && CanRetry(s)
    ensures LeavesLiveClient(s, es) && Quiet(Exec(s, es))
  {
    es := DriveToAttempt(s);
    RunKeepsInv(s, es);
    var rest := StopDuringAttempt(Exec(s, es));
    Concat(s, es, rest);
    es := es + rest;
  }

  /**
   * So with automatic reconnection, heartbeat or not, a manager that connected at once
   * can be stopped, end Closed and leave a live client behind.
   */
  lemma StopCanLeaveALiveClient(config: Config) returns (es: seq<Event>)
    requires config.autoReconnect
    ensures Legal(Init(config), es)
    ensures var s := Exec(Init(config), es);
      && s.owner.Stopped? && s.state.Closed? && s.client == Client(true)
      && Finished(s.monitor) && Finished(s.reconnect)
  {
    es := Launch(config);
    ReachableInv(config, es);
    var rest := RetryOutlivesStop(Exec(Init(config), es));
    Concat(Init(config), es, rest);
    es := es + rest;
    ReachableInv(config, es);
  }

  // ---- A retry that succeeds ----

  /** Worker steps to the end of a retry that succeeds. */
  function SuccessRank(w: Worker): nat {
    match w
    case Absent | Done | MGiveUp | LExceeded => 0
    case LMonitor => 1
    case LHeartbeat => 2
    case LZero => 3
    case LConnected => 4
    case LCallback => 5
    case LConnect => 6
    case LCreate => 7
    case LSleep => 8
    case LLimit => 9
    case LCount => 10
    case LCheck => 11
    case LBackoff | MBranch => 12
    case MDrop => 13
    case MLost => 14
    case MTest => 15
    case MRecheck => 16
    case MSleep => 17
    case MCheck => 18
  }

  /** Where a successful step takes a worker that reconnects, its client dead if it polls. */
  lemma SuccessGoesOn(w: Worker, c: Config, client: Client, count: int)
    requires MayRetry(w, c, count, true) && !w.LMonitor?
    requires Polling(w) || w.MDrop? || w.MBranch? ==> count == 0
    requires Polling(w) ==> client == Client(false)
    ensures var w' := WorkerGoes(w, c, true, client, count, true);
      && MayRetry(w', c, WorkerCounts(w, count), true) && SuccessRank(w') < SuccessRank(w)
      && (Polling(w') ==> WorkerSetsClient(w, client, true) == Client(false))
  {}

  /** The worker in charge, while `stop` is at most called, can reconnect. */
  ghost predicate Hopeful(s: State, who: Who) {
    && Inv(s) && Serving(s.owner) && Pc(s, who) == Active(s) && MayRetry(Active(s), s.config, s.count, true)
  }

  /** It has reconnected. */
  ghost predicate Reconnected(s: State, t: State, who: Who) {
    && Inv(t) && t.owner == s.owner && !t.monitor.Absent? && Pc(t, who).Done?
    && (if who.Monitor? then t.recovered else t.monitor.MCheck?)
  }

  lemma LastSuccessStep(s: State, who: Who)
    requires Hopeful(s, who) && Active(s).LMonitor?
    ensures Enabled(s, WorkerStep(who, true)) && Reconnected(s, WorkerNext(s, who, true), who)
  {
    StepKeepsInv(s, WorkerStep(who, true));
  }

  lemma SuccessStep(s: State, who: Who)
    requires Hopeful(s, who) && !Active(s).LMonitor?
    requires Polling(Active(s)) ==> s.client == Client(false)
    ensures Enabled(s, WorkerStep(who, true))
    ensures var t := WorkerNext(s, who, true);
      Hopeful(t, who) && t.owner == s.owner && SuccessRank(Active(t)) < SuccessRank(Active(s))
  {
    SuccessGoesOn(Active(s), s.config, s.client, s.count);
    WorkerKeepsMonitor(s, who, true);
    StepKeepsInv(s, WorkerStep(who, true));
  }

  lemma LossStep(s: State, who: Who)
    requires Hopeful(s, who) && s.client == Client(true)
    ensures var t := Apply(s, Drop);
      Hopeful(t, who) && t.owner == s.owner && Active(t) == Active(s) && t.client == Client(false)
  {
    StepKeepsInv(s, Drop);
  }

  /** The worker in charge loses its connection, if it polls, and reconnects. */
  lemma {:induction false} DriveToReconnected(s: State, who: Who) returns (es: seq<Event>)
    requires Hopeful(s, who)
    ensures Legal(s, es) && Reconnected(s, Exec(s, es), who)
    decreases SuccessRank(Active(s)), s.client == Client(true)
  {
    var e := WorkerStep(who, true);
    es := [];
    if Active(s).LMonitor? {
      LastSuccessStep(s, who);
    } else if Polling(Active(s)) && s.client == Client(true) {
      e := Drop;
      LossStep(s, who);
      es := DriveToReconnected(Apply(s, e), who);
    } else {
      SuccessStep(s, who);
      es := DriveToReconnected(Apply(s, e), who);
    }
    es := Prepend(s, e, es);
  }
}

/**
 * Which drops of the connection the manager notices.
 */
module ConnectionLosses {
  import opened ConnectionModel
  import opened ConnectionResults
  import opened ConnectionStop

  // ---- Exactly the first drop is noticed ----

  /** Worker steps up to the detection of a loss, when the client is dead. */
  function NoticeRank(w: Worker): nat {
    match w
    case MLost => 1
    case MTest => 2
    case MRecheck => 3
    case MSleep => 4
    case MCheck => 5
    case LMonitor => 6
    case LHeartbeat => 7
    case LZero => 8
    case _ => 0
  }

  /** A dead client that a monitor polls, or that a monitor still to be created will poll. */
  predicate Watched(s: State) {
    && s.owner.Running? && s.client == Client(false) && s.losses == 0
    && (Polling(s.monitor) || (s.monitor.Absent? && Succeeded(s.reconnect)))
  }

  /** A step leaves the dead client watched, one worker step nearer to detection, or detects the loss. */
  lemma WatchedStep(s: State, e: Event)
    requires Inv(s) && Enabled(s, e) && Watched(s) && !e.CallStop?
    ensures var t := Apply(s, e);
      if Active(s).MLost? && e.WorkerStep? then t.losses == 1
      else Watched(t) && NoticeRank(Active(t)) + (if e.WorkerStep? then 1 else 0) == NoticeRank(Active(s))
  {
    match e
    case WorkerStep(who, ok) => WatchedWorkerStep(s, who, ok);
    case _ =>
  }

  lemma WatchedWorkerStep(s: State, who: Who, ok: bool)
    requires Inv(s) && Enabled(s, WorkerStep(who, ok)) && Watched(s)
    ensures var t := WorkerNext(s, who, ok);
      if Active(s).MLost? then t.losses == 1
      else Watched(t) && NoticeRank(Active(t)) + 1 == NoticeRank(Active(s))
  {
    OnlyActiveMoves(s, who, ok);
    WorkerKeepsThreads(s, who, ok);
  }

  ghost function WorkerSteps(es: seq<Event>): nat {
    if es == [] then 0 else (if es[0].WorkerStep? then 1 else 0) + WorkerSteps(es[1..])
  }

  predicate StopCalled(o: Owner) {
    o.StopClosing? || !BeforeStop(o)
  }

  lemma {:induction false} StopIsNotUndone(s: State, es: seq<Event>)
    requires Inv(s) && Legal(s, es)
    requires s.losses == 1 || StopCalled(s.owner)
    ensures Exec(s, es).owner.Running? ==> Exec(s, es).losses == 1
    decreases |es|
  {
    if es != [] {
      StepKeepsInv(s, es[0]);
      LossesGrow(s, es[0]);
      StopIsNotUndone(Apply(s, es[0]), es[1..]);
    }
  }

  lemma LossesGrow(s: State, e: Event)
    requires Enabled(s, e)
    ensures Apply(s, e).losses >= s.losses
    ensures StopCalled(s.owner) ==> StopCalled(Apply(s, e).owner)
  {
    match e
    case OwnerStep(ok) => OwnerKeepsLosses(s, ok);
    case _ =>
  }

  lemma OwnerKeepsLosses(s: State, ok: bool)
    requires Enabled(s, OwnerStep(ok))
    ensures OwnerNext(s, ok).losses == s.losses
    ensures StopCalled(s.owner) ==> StopCalled(OwnerNext(s, ok).owner)
  {}

  lemma {:induction false} WatchedRun(s: State, es: seq<Event>)
    requires Inv(s) && Legal(s, es) && Watched(s)
    ensures Exec(s, es).owner.Running? && WorkerSteps(es) >= NoticeRank(Active(s)) ==> Exec(s, es).losses == 1
    decreases |es|
  {
    if es != [] {
      StepKeepsInv(s, es[0]);
      if es[0].CallStop? {
        StopIsNotUndone(Apply(s, es[0]), es[1..]);
      } else {
        WatchedStep(s, es[0]);
        if Watched(Apply(s, es[0])) {
          WatchedRun(Apply(s, es[0]), es[1..]);
        } else {
          StopIsNotUndone(Apply(s, es[0]), es[1..]);
        }
      }
    }
  }

  /** The steps of the worker in charge detect the loss. */
  lemma {:induction false} DriveToNotice(s: State) returns (es: seq<Event>)
    requires Inv(s) && Watched(s)
    ensures Notices(s, es)
    decreases NoticeRank(Active(s))
  {
    var e := WorkerStep(if s.monitor.Absent? then Reconnect else Monitor, true);
    var rest := [];
    WatchedStep(s, e);
    StepKeepsInv(s, e);
    if Watched(Apply(s, e)) {
      rest := DriveToNotice(Apply(s, e));
    }
    es := Prepend(s, e, rest);
  }

  /** A continuation in which a loss is detected. */
  ghost predicate Notices(s: State, more: seq<Event>) {
    Legal(s, more) && Exec(s, more).losses > s.losses
  }

  /** A dead client under the state Connected is watched exactly if no loss was detected before. */
  lemma ConnectedIsWatched(config: Config, es: seq<Event>)
    requires Legal(Init(config), es)
    requires var s := Exec(Init(config), es); s.owner.Running? && s.state.Connected? && s.client == Client(false)
    ensures var s := Exec(Init(config), es); Inv(s) && s.losses <= 1 && (Watched(s) <==> s.losses == 0)
  {
    ReachableInv(config, es);
    StateFollowsTheThreads(config, es);
  }

  /**
   * A connection that has dropped while the state says Connected can be noticed exactly
   * if no loss was reported before.
   */
  lemma DropIsNoticedExactlyOnce(config: Config, es: seq<Event>)
    requires Legal(Init(config), es)
    requires var s := Exec(Init(config), es); s.owner.Running? && s.state.Connected? && s.client == Client(false)
    ensures (exists more :: Notices(Exec(Init(config), es), more)) <==> Exec(Init(config), es).losses == 0
  {
    var s := Exec(Init(config), es);
    ConnectedIsWatched(config, es);
    if s.losses == 0 {
      var more := DriveToNotice(s);
    } else {
      forall more | Legal(s, more)
        ensures !Notices(s, more)
      {
        RunKeepsInv(s, more);
      }
    }
  }

  /**
   * And then it is noticed whatever the interleaving: as long as `stop` is not called,
   * eight steps of the monitor and reconnect threads detect the loss.
   */
  lemma FirstDropIsNoticedInEightSteps(config: Config, es: seq<Event>, more: seq<Event>)
    requires Legal(Init(config), es) && Legal(Exec(Init(config), es), more)
    requires var s := Exec(Init(config), es);
      s.owner.Running? && s.state.Connected? && s.client == Client(false) && s.losses == 0
    requires Exec(Exec(Init(config), es), more).owner.Running? && WorkerSteps(more) >= 8
    ensures Exec(Exec(Init(config), es), more).losses == 1
  {
    ConnectedIsWatched(config, es);
    WatchedRun(Exec(Init(config), es), more);
  }

  // ---- A run with a second drop ----

  /**
   * A second drop goes unnoticed.  For every configuration with automatic reconnection
   * there is a run after which the state says Connected, the client is dead, the manager
   * has not been stopped, and no monitor or reconnect thread is left to notice.
   */
  lemma SecondDropGoesUnnoticed(config: Config) returns (es: seq<Event>)
    requires config.autoReconnect
    ensures Legal(Init(config), es)
    ensures var s := Exec(Init(config), es);
      && s.state.Connected? && s.client == Client(false) && s.owner.Running?
      && Finished(s.monitor) && Finished(s.reconnect)
  {
    es := Launch(config);
    ReachableInv(config, es);
    var rest := DriveToReconnected(Launched(config), Monitor);
    Concat(Init(config), es, rest);
    es := es + rest;
    if Exec(Init(config), es).client == Client(true) {
      es := Extend(Init(config), es, Drop);
    }
  }
}

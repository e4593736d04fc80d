/** The runner's status-changing steps, interleaved with control requests by their callers. */
module Runner {
  import opened Prelude
  import opened Domain
  import opened StateMachine
  import opened Projection
  import opened AttemptHistory
  import opened Store
  import opened Execution
  import opened Workers

  function Checkpointed(a: WorkerAttempt, checkpointId: string, safe: bool): WorkerAttempt {
    a.(checkpoint := Some(checkpointId), safeToResume := safe, version := a.version + 1)
  }

  function Moved(a: WorkerAttempt, status: AttemptStatus, now: int): WorkerAttempt {
    a.(status := status, version := a.version + 1, updatedAt := now)
  }

  /** The moves to a final status that need no proof that execution stopped. */
  predicate Movable(from: AttemptStatus, to: AttemptStatus) {
    Allowed(from, to) && !(from.CancelRequested? && to.Cancelled?)
  }

  class WorkerRunner {
    const store: Store
    const manager: ExecutionManager
    const checkpoints: CheckpointStore?

    ghost predicate Wired() {
      manager.store == store && manager.Wired()
    }

    constructor (store: Store, checkpoints: CheckpointStore?)
      ensures this.store == store && this.checkpoints == checkpoints && Wired()
    {
      this.store := store;
      this.checkpoints := checkpoints;
      manager := new ExecutionManager(store);
    }

    /** A provider request is bound once; binding the same request again changes nothing. */
    method BindRequest(id: string, request: string, stored: bool) returns (r: Answer)
      requires store.Sound()
      modifies store`log, store`attempts
      ensures store.Sound() && (old(CapacityLog(store.log)) ==> CapacityLog(store.log))
      ensures id !in old(store.attempts).vals ==> r == Err(NotFound)
      ensures id in old(store.attempts).vals ==>
                var a := old(store.attempts).vals[id];
                r == if a.request.Some? then (if a.request.value != request then Err(RequestImmutable) else Ok(a))
                     else if stored then Ok(a.(request := Some(request), version := a.version + 1))
                     else Err(CommitRefused)
      ensures r.Ok? ==> store.attempts.vals == old(store.attempts).vals[id := r.value]
                        && store.log == if old(store.attempts).vals[id].request.Some? then old(store.log)
                                        else old(store.log) + [store.Record(WorkerRequestBound, r.value)]
      ensures r.Err? ==> store.attempts == old(store.attempts) && store.log == old(store.log)
    {
      if id !in store.attempts.vals { return Err(NotFound); }
      var a := store.attempts.vals[id];
      if a.request.Some? {
        assert store.attempts.vals == store.attempts.vals[id := a];
        return if a.request.value != request then Err(RequestImmutable) else Ok(a);
      }
      SafeLogReplays(store.log);
      var updated := a.(request := Some(request), version := a.version + 1);
      store.CommitThenShow(WorkerRequestBound, updated, stored);
      return if stored then Ok(updated) else Err(CommitRefused);
    }

    /** Moves a claimed attempt to running; the first checkpoint follows as its own step. */
    method Start(id: string, now: int, stored: bool) returns (r: Answer)
      requires store.Sound()
      modifies store`log, store`attempts
      ensures SafeLog(store.log) && (store.Synced() <==> r != Err(CommitRefused))
      ensures old(CapacityLog(store.log)) ==> CapacityLog(store.log)
      ensures r.Ok? ==> id in old(store.attempts).vals && old(store.attempts).vals[id].status.Claimed?
                        && r.value == Moved(old(store.attempts).vals[id], Running, now)
                        && store.attempts == old(store.attempts).Put(id, r.value)
                        && store.log == old(store.log) + [store.Record(WorkerStarted, r.value)]
      ensures r == Err(InvalidTransition) <==>
                id !in old(store.attempts).vals || !old(store.attempts).vals[id].status.Claimed?
      ensures r == Err(InvalidTransition) ==> store.attempts == old(store.attempts) && store.log == old(store.log)
    {
      if id !in store.attempts.vals || !store.attempts.vals[id].status.Claimed? { return Err(InvalidTransition); }
      SafeLogReplays(store.log);
      var a := store.attempts.vals[id];
      var running := TransitionAttempt(a, Running, a.version, NoConditions.(claimTokenValid := true), now);
      store.ShowThenCommit(WorkerStarted, running.value, stored);
      return if stored then Ok(running.value) else Err(CommitRefused);
    }

    /** Saves a checkpoint and points the attempt at it. Without a checkpoint store nothing happens. */
    method Checkpoint(id: string, checkpointId: string, safe: bool, stored: bool) returns (r: Answer)
      requires store.Sound() && id in store.attempts.vals
      modifies store`log, store`attempts, checkpoints
      ensures SafeLog(store.log) && (store.Synced() <==> r != Err(CommitRefused))
      ensures old(CapacityLog(store.log)) ==> CapacityLog(store.log)
      ensures checkpoints == null ==> r == Ok(old(store.attempts).vals[id]) && store.attempts == old(store.attempts)
      ensures checkpoints != null ==>
                && r == (if stored then Ok(Checkpointed(old(store.attempts).vals[id], checkpointId, safe))
                         else Err(CommitRefused))
                && checkpoints.flags == old(checkpoints.flags)[checkpointId := safe]
                && store.attempts
                     == old(store.attempts).Put(id, Checkpointed(old(store.attempts).vals[id], checkpointId, safe))
      ensures store.log == if checkpoints == null || !stored then old(store.log)
                           else old(store.log) + [store.Record(WorkerCheckpointed, r.value)]
    {
      var a := store.attempts.vals[id];
      if checkpoints == null { return Ok(a); }
      checkpoints.flags := checkpoints.flags[checkpointId := safe];
      SafeLogReplays(store.log);
      var updated := Checkpointed(a, checkpointId, safe);
      store.ShowThenCommit(WorkerCheckpointed, updated, stored);
      return if stored then Ok(updated) else Err(CommitRefused);
    }

    /** Settles a pause: request it if still running, checkpoint, then record the pause. */
    method Pause(id: string, checkpointId: string, now: int, quota: nat) returns (r: Answer)
      requires Wired() && store.Sound() && id in store.attempts.vals
      modifies store`log, store`attempts, checkpoints
      ensures SafeLog(store.log) && (r != Err(CommitRefused) ==> store.Synced())
      ensures old(CapacityLog(store.log)) ==> CapacityLog(store.log)
      ensures r.Ok? ==>
                var a := old(store.attempts).vals[id];
                var asked := if a.status.Running? then Moved(a, PauseRequested, now) else a;
                && r.value == (if !asked.status.PauseRequested? then a
                               else if checkpoints == null then Moved(asked, Paused, now)
                               else Moved(Checkpointed(asked, checkpointId, true), Paused, now))
                && store.attempts.vals == old(store.attempts).vals[id := r.value]
      ensures checkpoints != null && r.Ok? && r.value != old(store.attempts).vals[id] ==>
                checkpoints.flags == old(checkpoints.flags)[checkpointId := true]
      ensures r.Err? ==> r == Err(CommitRefused)
      ensures var events := PauseEvents(
                store.attemptSession, old(store.attempts).vals[id], checkpointId, checkpoints != null, now);
              (r.Ok? <==> quota >= |events|) && store.log == old(store.log) + UpTo(events, quota)
    {
      SafeLogReplays(store.log);
      var a := store.attempts.vals[id];
      TakeAll(store.log);
      if a.status.Running? {
        r := PauseRunning(id, checkpointId, now, quota);
      } else if a.status.PauseRequested? {
        r := SettlePause(id, checkpointId, now, quota);
      } else {
        assert store.attempts.vals[id := a] == store.attempts.vals;
        r := Ok(a);
      }
    }

    /** Asks a running attempt to pause, and settles the request at once. */
    method PauseRunning(id: string, checkpointId: string, now: int, quota: nat) returns (r: Answer)
      requires Wired() && store.Sound() && id in store.attempts.vals && store.attempts.vals[id].status.Running?
      modifies store`log, store`attempts, checkpoints
      ensures SafeLog(store.log) && (r != Err(CommitRefused) ==> store.Synced())
      ensures old(CapacityLog(store.log)) ==> CapacityLog(store.log)
      ensures r.Ok? ==>
                var asked := Moved(old(store.attempts).vals[id], PauseRequested, now);
                && r.value == (if checkpoints == null then Moved(asked, Paused, now)
                               else Moved(Checkpointed(asked, checkpointId, true), Paused, now))
                && store.attempts.vals == old(store.attempts).vals[id := r.value]
                && (checkpoints != null ==> checkpoints.flags == old(checkpoints.flags)[checkpointId := true])
      ensures r.Err? ==> r == Err(CommitRefused)
      ensures var events := PauseEvents(
                store.attemptSession, old(store.attempts).vals[id], checkpointId, checkpoints != null, now);
              (r.Ok? <==> quota >= |events|) && store.log == old(store.log) + UpTo(events, quota)
    {
      ghost var vals, log, sessions := store.attempts.vals, store.log, store.attemptSession;
      ghost var asked := ControlRequested(store.attempts.vals[id], true, now);
      UpToJoin(log, ControlEvents(sessions, asked, true),
               SettleEvents(sessions, asked, checkpointId, checkpoints != null, now), quota);
      r := manager.RequestControl(id, true, now, quota);
      if r.Err? { return; }
      r := SettlePause(id, checkpointId, now, quota - 2);
      if r.Ok? { OverwriteTwice(vals, id, asked, r.value); }
    }

    method SettlePause(id: string, checkpointId: string, now: int, quota: nat) returns (r: Answer)
      requires store.Sound() && id in store.attempts.vals && store.attempts.vals[id].status.PauseRequested?
      modifies store`log, store`attempts, checkpoints
      ensures SafeLog(store.log) && (r != Err(CommitRefused) ==> store.Synced())
      ensures old(CapacityLog(store.log)) ==> CapacityLog(store.log)
      ensures r.Ok? ==>
                var a := old(store.attempts).vals[id];
                && r.value == Moved(if checkpoints == null then a else Checkpointed(a, checkpointId, true), Paused, now)
                && store.attempts.vals == old(store.attempts).vals[id := r.value]
                && (checkpoints != null ==> checkpoints.flags == old(checkpoints.flags)[checkpointId := true])
      ensures r.Err? ==> r == Err(CommitRefused)
      ensures var events := SettleEvents(
                store.attemptSession, old(store.attempts).vals[id], checkpointId, checkpoints != null, now);
              (r.Ok? <==> quota >= |events|) && store.log == old(store.log) + UpTo(events, quota)
    {
      SafeLogReplays(store.log);
      ghost var vals, log, a := store.attempts.vals, store.log, store.attempts.vals[id];
      ghost var events := SettleEvents(store.attemptSession, a, checkpointId, checkpoints != null, now);
      r := Checkpoint(id, checkpointId, true, quota > 0);
      SettleJoin(log, store.attemptSession, a, checkpointId, checkpoints != null, now, quota);
      if r.Err? { return; }
      OverwriteTwice(vals, id, r.value, Moved(r.value, Paused, now));
      r := FinishPause(id, now, if checkpoints == null then quota else quota - 1);
    }

    method FinishPause(id: string, now: int, quota: nat) returns (r: Answer)
      requires store.Sound() && id in store.attempts.vals && store.attempts.vals[id].status.PauseRequested?
      modifies store`log, store`attempts
      ensures SafeLog(store.log) && (store.Synced() <==> r != Err(CommitRefused))
      ensures old(CapacityLog(store.log)) ==> CapacityLog(store.log)
      ensures var a := old(store.attempts).vals[id];
              && store.attempts == old(store.attempts).Put(id, Moved(a, Paused, now))
              && r == if quota >= 2 then Ok(Moved(a, Paused, now)) else Err(CommitRefused)
      ensures var paused := Moved(old(store.attempts).vals[id], Paused, now);
              store.log == old(store.log)
                           + UpTo([store.Record(WorkerPaused, paused), store.Record(WorkerCheckpointed, paused)], quota)
    {
      SafeLogReplays(store.log);
      var a := store.attempts.vals[id];
      var paused := TransitionAttempt(a, Paused, a.version, NoConditions.(checkpointDurable := true), now);
      store.ShowThenCommitTwice(WorkerPaused, paused.value, quota);
      return if quota >= 2 then Ok(paused.value) else Err(CommitRefused);
    }

    /** Settles a cancel once execution has stopped. */
    method Cancel(id: string, now: int, quota: nat) returns (r: Answer)
      requires Wired() && store.Sound() && id in store.attempts.vals
      modifies store`log, store`attempts
      ensures SafeLog(store.log) && (store.Synced() <==> r != Err(CommitRefused))
      ensures old(CapacityLog(store.log)) ==> CapacityLog(store.log)
      ensures r.Ok? ==>
                var a := old(store.attempts).vals[id];
                var asked := if a.status.Running? then Moved(a, CancelRequested, now) else a;
                && r.value == (if asked.status.CancelRequested? then Moved(asked, Cancelled, now) else a)
                && store.attempts.vals == old(store.attempts).vals[id := r.value]
      ensures r.Err? ==> r == Err(CommitRefused)
      ensures var events := CancelEvents(store.attemptSession, old(store.attempts).vals[id], now);
              (r.Ok? <==> quota >= |events|) && store.log == old(store.log) + UpTo(events, quota)
    {
      SafeLogReplays(store.log);
      var a := store.attempts.vals[id];
      TakeAll(store.log);
      if a.status.Running? {
        r := CancelRunning(id, now, quota);
      } else if a.status.CancelRequested? {
        r := Stop(id, Cancelled, WorkerStopped, NoConditions.(executionStopped := true), now, quota > 0);
      } else {
        assert store.attempts.vals[id := a] == store.attempts.vals;
        r := Ok(a);
      }
    }

    /** Asks a running attempt to cancel, and ends it at once. */
    method CancelRunning(id: string, now: int, quota: nat) returns (r: Answer)
      requires Wired() && store.Sound() && id in store.attempts.vals && store.attempts.vals[id].status.Running?
      modifies store`log, store`attempts
      ensures SafeLog(store.log) && (store.Synced() <==> r != Err(CommitRefused))
      ensures old(CapacityLog(store.log)) ==> CapacityLog(store.log)
      ensures r.Ok? ==>
                && r.value == Moved(Moved(old(store.attempts).vals[id], CancelRequested, now), Cancelled, now)
                && store.attempts.vals == old(store.attempts).vals[id := r.value]
      ensures r.Err? ==> r == Err(CommitRefused)
      ensures var events := CancelEvents(store.attemptSession, old(store.attempts).vals[id], now);
              (r.Ok? <==> quota >= |events|) && store.log == old(store.log) + UpTo(events, quota)
    {
      ghost var vals, log, sessions := store.attempts.vals, store.log, store.attemptSession;
      ghost var asked := ControlRequested(store.attempts.vals[id], false, now);
      ghost var stopped := Moved(asked, Cancelled, now);
      UpToJoin(log, ControlEvents(sessions, asked, false), [Noted(sessions, WorkerStopped, stopped)], quota);
      r := manager.RequestControl(id, false, now, quota);
      if r.Err? { return; }
      OverwriteTwice(vals, id, asked, stopped);
      TakeAll(store.log);
      r := Stop(id, Cancelled, WorkerStopped, NoConditions.(executionStopped := true), now, quota > 2);
    }

    /** A cancel whose execution could not be shown to have stopped ends failed. */
    method CancelFailed(id: string, now: int, stored: bool) returns (r: Answer)
      requires store.Sound() && id in store.attempts.vals
      modifies store`log, store`attempts
      ensures SafeLog(store.log) && (store.Synced() <==> r != Err(CommitRefused))
      ensures old(CapacityLog(store.log)) ==> CapacityLog(store.log)
      ensures var a := old(store.attempts).vals[id];
              if !a.status.CancelRequested? then r == Ok(a) && store.attempts == old(store.attempts)
              else store.attempts == old(store.attempts).Put(id, Moved(a, Failed, now))
                   && r == if stored then Ok(Moved(a, Failed, now)) else Err(CommitRefused)
      ensures store.log == if r.Ok? && old(store.attempts).vals[id].status.CancelRequested?
                           then old(store.log) + [store.Record(WorkerCancelFailed, r.value)] else old(store.log)
    {
      SafeLogReplays(store.log);
      if !store.attempts.vals[id].status.CancelRequested? { return Ok(store.attempts.vals[id]); }
      r := Stop(id, Failed, WorkerCancelFailed, NoConditions, now, stored);
    }

    /** One guarded transition to a final status, shown first and then committed. */
    method Stop(id: string, status: AttemptStatus, kind: WorkerEventKind, c: Conditions, now: int, stored: bool)
      returns (r: Answer)
      requires store.Sound() && id in store.attempts.vals && Terminal(status)
      requires kind.WorkerStopped? || kind.WorkerCancelFailed?
      modifies store`log, store`attempts
      ensures SafeLog(store.log) && (store.Synced() <==> r != Err(CommitRefused))
      ensures old(CapacityLog(store.log)) ==> CapacityLog(store.log)
      ensures var a := old(store.attempts).vals[id];
              if !(Movable(a.status, status) || (c.executionStopped && Allowed(a.status, status)))
              then r == Err(InvalidTransition) && store.attempts == old(store.attempts) && store.log == old(store.log)
              else store.attempts == old(store.attempts).Put(id, Moved(a, status, now))
                   && r == if stored then Ok(Moved(a, status, now)) else Err(CommitRefused)
      ensures store.log == if r.Ok? then old(store.log) + [store.Record(kind, r.value)] else old(store.log)
    {
      SafeLogReplays(store.log);
      var a := store.attempts.vals[id];
      StopRecorded(store.Live(), a, status, kind, c, now);
      var stopped := TransitionAttempt(a, status, a.version, c, now);
      if stopped.Err? { return Err(InvalidTransition); }
      store.ShowThenCommit(kind, stopped.value, stored);
      return if stored then Ok(stopped.value) else Err(CommitRefused);
    }

    /**
     Ends an attempt: last checkpoint, final status, acknowledgement, each its own commit. An attempt
     that cannot move to `status` keeps its own, checkpointed once more.
     */
    method Finish(id: string, status: AttemptStatus, checkpointId: string, now: int, quota: nat) returns (r: Answer)
      requires Wired() && store.Sound() && id in store.attempts.vals && Terminal(status)
      modifies store`log, store`attempts, store`terminalAcks, checkpoints
      ensures SafeLog(store.log) && (r != Err(CommitRefused) ==> store.Synced())
      ensures old(CapacityLog(store.log)) ==> CapacityLog(store.log)
      ensures var a := old(store.attempts).vals[id];
              var last := if checkpoints == null then a else Checkpointed(a, checkpointId, status.Succeeded?);
              var cost := if checkpoints == null then 0 else 1;
              && (r.Ok? <==> Movable(a.status, status) && quota >= cost + 2)
              && (r.Ok? ==> r.value == Moved(last, status, now)
                            && store.attempts.vals == old(store.attempts).vals[id := r.value]
                            && store.terminalAcks == old(store.terminalAcks) + {id})
              && (!Movable(a.status, status) && quota >= cost ==>
                    r == Err(InvalidTransition) && store.attempts.vals == old(store.attempts).vals[id := last])
      ensures r.Err? && r != Err(InvalidTransition) ==> r == Err(CommitRefused)
      ensures r.Err? ==> store.terminalAcks == old(store.terminalAcks)
      ensures var a, durable := old(store.attempts).vals[id], checkpoints != null;
              var events := FinishEvents(store.attemptSession, a, status, checkpointId, durable, now);
              store.log == old(store.log) + UpTo(events, quota)
    {
      SafeLogReplays(store.log);
      ghost var vals := store.attempts.vals;
      FinishJoin(store.log, store.attemptSession, vals[id], status, checkpointId, checkpoints != null, now, quota);
      r := Checkpoint(id, checkpointId, status.Succeeded?, quota > 0);
      if r.Err? { return; }
      ghost var last := r.value;
      OverwriteTwice(vals, id, last, Moved(last, status, now));
      r := StopAndAck(id, status, now, if checkpoints == null then quota else quota - 1);
    }

    method StopAndAck(id: string, status: AttemptStatus, now: int, quota: nat) returns (r: Answer)
      requires Wired() && store.Sound() && id in store.attempts.vals && Terminal(status)
      modifies store`log, store`attempts, store`terminalAcks
      ensures SafeLog(store.log) && (r != Err(CommitRefused) ==> store.Synced())
      ensures old(CapacityLog(store.log)) ==> CapacityLog(store.log)
      ensures var a := old(store.attempts).vals[id];
              && (r.Ok? <==> Movable(a.status, status) && quota >= 2)
              && (r.Ok? ==> r.value == Moved(a, status, now)
                            && store.attempts == old(store.attempts).Put(id, r.value)
                            && store.terminalAcks == old(store.terminalAcks) + {id})
              && (!Movable(a.status, status) ==> r == Err(InvalidTransition) && store.attempts == old(store.attempts))
      ensures r.Err? && r != Err(InvalidTransition) ==> r == Err(CommitRefused)
      ensures r.Err? ==> store.terminalAcks == old(store.terminalAcks)
      ensures store.log == old(store.log)
                           + UpTo(StopEvents(store.attemptSession, old(store.attempts).vals[id], status, now), quota)
    {
      SafeLogReplays(store.log);
      ghost var log, sessions, a := store.log, store.attemptSession, store.attempts.vals[id];
      StopsUpTo(log, sessions, a, status, now, quota);
      assert Movable(a.status, status) ==> id !in store.terminalAcks;
      r := Stop(id, status, WorkerStopped, NoConditions, now, quota > 0);
      if r.Err? { return; }
      ghost var stopped := r.value;
      assert store.attempts.vals[id] == stopped && stopped == Moved(a, status, now);
      r := manager.queue.AckTerminal(id, Some(status), quota > 1);
      assert r == if quota > 1 then Ok(stopped) else Err(CommitRefused);
    }
  }

  /** A pause that was asked for: a safe checkpoint, if there is where to put it, and the paused attempt behind it. */
  function SettleEvents(sessions: map<string, string>, asked: WorkerAttempt, checkpointId: string, durable: bool,
                        now: int): seq<Event>
  {
    var saved := Checkpointed(asked, checkpointId, true);
    var paused := Moved(if durable then saved else asked, Paused, now);
    (if durable then [Noted(sessions, WorkerCheckpointed, saved)] else [])
    + [Noted(sessions, WorkerPaused, paused), Noted(sessions, WorkerCheckpointed, paused)]
  }

  lemma SettleJoin(log: seq<Event>, sessions: map<string, string>, asked: WorkerAttempt, checkpointId: string,
                   durable: bool, now: int, quota: nat)
    ensures var saved := Checkpointed(asked, checkpointId, true);
            var paused := Moved(if durable then saved else asked, Paused, now);
            var rest := [Noted(sessions, WorkerPaused, paused), Noted(sessions, WorkerCheckpointed, paused)];
            var events := SettleEvents(sessions, asked, checkpointId, durable, now);
            && |events| == (if durable then 3 else 2)
            && log + UpTo(events, quota)
            == if !durable then log + UpTo(rest, quota)
               else if quota == 0 then log
               else log + [Noted(sessions, WorkerCheckpointed, saved)] + UpTo(rest, quota - 1)
  {
    var saved := Checkpointed(asked, checkpointId, true);
    var paused := Moved(if durable then saved else asked, Paused, now);
    var first := if durable then [Noted(sessions, WorkerCheckpointed, saved)] else [];
    var rest := [Noted(sessions, WorkerPaused, paused), Noted(sessions, WorkerCheckpointed, paused)];
    UpToJoin(log, first, rest, quota);
    TakeAll(log);
  }

  /** A running attempt is asked first; one in any other status is settled if it was asked, and else left alone. */
  function PauseEvents(sessions: map<string, string>, a: WorkerAttempt, checkpointId: string, durable: bool,
                       now: int): seq<Event>
  {
    if a.status.Running? then
      var asked := ControlRequested(a, true, now);
      ControlEvents(sessions, asked, true) + SettleEvents(sessions, asked, checkpointId, durable, now)
    else if a.status.PauseRequested? then SettleEvents(sessions, a, checkpointId, durable, now)
    else []
  }

  function CancelEvents(sessions: map<string, string>, a: WorkerAttempt, now: int): seq<Event> {
    if a.status.Running? then
      var asked := ControlRequested(a, false, now);
      ControlEvents(sessions, asked, false) + [Noted(sessions, WorkerStopped, Moved(asked, Cancelled, now))]
    else if a.status.CancelRequested? then [Noted(sessions, WorkerStopped, Moved(a, Cancelled, now))]
    else []
  }

  /** The final status and its acknowledgement, when the status can be reached. */
  function StopEvents(sessions: map<string, string>, a: WorkerAttempt, status: AttemptStatus, now: int): seq<Event> {
    var stopped := Moved(a, status, now);
    if Movable(a.status, status)
    then [Noted(sessions, WorkerStopped, stopped), Noted(sessions, WorkerTerminalAck, stopped)] else []
  }

  lemma StopsUpTo(log: seq<Event>, sessions: map<string, string>, a: WorkerAttempt, status: AttemptStatus, now: int,
                  quota: nat)
    ensures var stopped := Moved(a, status, now);
            log + UpTo(StopEvents(sessions, a, status, now), quota)
            == if !Movable(a.status, status) || quota == 0 then log
               else if quota == 1 then log + [Noted(sessions, WorkerStopped, stopped)]
               else log + [Noted(sessions, WorkerStopped, stopped)] + [Noted(sessions, WorkerTerminalAck, stopped)]
  {
    var stopped := Moved(a, status, now);
    UpToTwo(log, Noted(sessions, WorkerStopped, stopped), Noted(sessions, WorkerTerminalAck, stopped), quota);
    TakeAll(log);
  }

  /** The last checkpoint, if there is where to put it, and the end behind it. */
  function FinishEvents(sessions: map<string, string>, a: WorkerAttempt, status: AttemptStatus, checkpointId: string,
                        durable: bool, now: int): seq<Event>
  {
    var last := if durable then Checkpointed(a, checkpointId, status.Succeeded?) else a;
    (if durable then [Noted(sessions, WorkerCheckpointed, last)] else []) + StopEvents(sessions, last, status, now)
  }

  lemma FinishJoin(log: seq<Event>, sessions: map<string, string>, a: WorkerAttempt, status: AttemptStatus,
                   checkpointId: string, durable: bool, now: int, quota: nat)
    ensures var last := Checkpointed(a, checkpointId, status.Succeeded?);
            log + UpTo(FinishEvents(sessions, a, status, checkpointId, durable, now), quota)
            == if !durable then log + UpTo(StopEvents(sessions, a, status, now), quota)
               else if quota == 0 then log
               else log + [Noted(sessions, WorkerCheckpointed, last)]
                    + UpTo(StopEvents(sessions, last, status, now), quota - 1)
  {
    var last := if durable then Checkpointed(a, checkpointId, status.Succeeded?) else a;
    var first := if durable then [Noted(sessions, WorkerCheckpointed, last)] else [];
    UpToJoin(log, first, StopEvents(sessions, last, status, now), quota);
    TakeAll(log);
    assert [] + StopEvents(sessions, a, status, now) == StopEvents(sessions, a, status, now);
  }

  lemma OverwriteTwice<V>(m: map<string, V>, k: string, v: V, w: V)
    ensures m[k := v][k := w] == m[k := w]
    ensures k in m && m[k] == v ==> m[k := v] == m
  {}

  lemma StopRecorded(s: State, a: WorkerAttempt, status: AttemptStatus, kind: WorkerEventKind, c: Conditions, now: int)
    requires StateOk(s) && a.id in s.attempts.vals && s.attempts.vals[a.id] == a
    requires Terminal(status) && (kind.WorkerStopped? || kind.WorkerCancelFailed?)
    ensures var possible := Movable(a.status, status) || (c.executionStopped && Allowed(a.status, status));
            var r := TransitionAttempt(a, status, a.version, c, now);
            if possible
            then r == Ok(Moved(a, status, now))
                && EventOk(s, WorkerEvent(kind, Moved(a, status, now), SessionOf(s, a.id)))
            else r.Err?
  {}
}

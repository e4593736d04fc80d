/**
 The services that move worker attempts: the queue, the manager and the runner's status steps.
 `stored` and `quota` say which commits the storage accepts; clocks, tokens and ids are arguments.
 */
module Execution {
  import opened Prelude
  import opened Domain
  import opened StateMachine
  import opened Projection
  import opened AttemptHistory
  import opened Store

  datatype Error =
    | NotFound | AlreadyExists | InvalidTransition | InvalidClaim | NotResumable | WorkerLimitExceeded
    | RequestImmutable | CommitRefused

  type Answer = Result<WorkerAttempt, Error>

  // ---------- The queue view ----------

  /** Queued attempts in dictionary order. */
  function QueuedIn(keys: seq<string>, vals: map<string, WorkerAttempt>): seq<string> {
    if keys == [] then []
    else (if keys[0] in vals && vals[keys[0]].status.Queued? then [keys[0]] else []) + QueuedIn(keys[1..], vals)
  }

  function QueuedIds(d: Dict<WorkerAttempt>): seq<string> {
    QueuedIn(d.keys, d.vals)
  }

  function ClaimedFrom(a: WorkerAttempt, token: string, expires: int): WorkerAttempt {
    a.(status := Claimed, claimToken := Some(token), claimExpires := Some(expires), version := a.version + 1)
  }

  function RequeuedFrom(a: WorkerAttempt): WorkerAttempt {
    a.(status := Queued, claimToken := None, claimExpires := None, version := a.version + 1)
  }

  predicate Requeueable(s: AttemptStatus) {
    s.Claimed? || s.Running? || s.Paused?
  }

  /** What the durable checkpoints say of an attempt: with no checkpoint store its own flag counts. */
  function SafeToRequeue(a: WorkerAttempt, checkpoints: Option<map<string, bool>>): bool {
    if checkpoints.None? then a.safeToResume
    else
      var point := ResumePoint(a);
      Present(point) && point.value in checkpoints.value && checkpoints.value[point.value]
  }

  /** The session an enqueue binds: the one given, else the one already bound to the id. */
  function EnqueueSession(bound: map<string, string>, id: string, sessionId: Option<string>): Option<string> {
    if Present(sessionId) then sessionId else if id in bound then Some(bound[id]) else None
  }

  class LocalExecutionQueue {
    const store: Store

    constructor (store: Store)
      ensures this.store == store
    {
      this.store := store;
    }

    method Enqueue(a: WorkerAttempt, sessionId: Option<string>, stored: bool) returns (r: Answer)
      requires store.Sound()
      modifies store`log, store`attempts, store`attemptSession
      ensures store.Synced() && (a.claimToken.None? ==> store.Sound())
      ensures a.id in old(store.attempts).vals ==>
                r == (if old(store.attempts).vals[a.id] == a then Ok(a) else Err(AlreadyExists))
      ensures a.id !in old(store.attempts).vals ==>
                r == if !a.status.Queued? then Err(InvalidTransition) else if stored then Ok(a) else Err(CommitRefused)
      ensures var admitted := a.id !in old(store.attempts).vals && a.status.Queued? && stored;
              && store.log
                   == (if admitted
                       then old(store.log)
                           + [WorkerEvent(WorkerQueued, a, if Present(sessionId) then sessionId else None)]
                               else old(store.log))
              && store.attempts == (if admitted then old(store.attempts).Put(a.id, a) else old(store.attempts))
              && store.attemptSession == (if admitted then BindSession(old(store.attemptSession), a.id, sessionId)
                                          else old(store.attemptSession))
    {
      if a.id in store.attempts.vals {
        return if store.attempts.vals[a.id] != a then Err(AlreadyExists) else Ok(store.attempts.vals[a.id]);
      }
      if !a.status.Queued? { return Err(InvalidTransition); }
      var session := EnqueueSession(store.attemptSession, a.id, sessionId);
      SafeLogReplays(store.log);
      var e := WorkerEvent(WorkerQueued, a, session);
      ReplaySnoc(store.log, e);
      if a.claimToken.None? { SafeLogSnoc(store.log, e); }
      store.Commit(e, stored);
      if !stored { return Err(CommitRefused); }
      store.attempts := store.attempts.Put(a.id, a);
      if Present(session) {
        store.attemptSession := store.attemptSession[a.id := session.value];
      }
      return Ok(a);
    }

    method ClaimNext(token: string, expires: int, stored: bool) returns (r: Result<Option<WorkerAttempt>, Error>)
      requires store.Sound()
      modifies store`log, store`attempts
      ensures store.Sound() && (old(CapacityLog(store.log)) ==> CapacityLog(store.log))
      ensures var waiting := QueuedIds(old(store.attempts));
              && (waiting == [] ==>
                   r == Ok(None) && store.log == old(store.log) && store.attempts == old(store.attempts))
              && (waiting != [] && stored ==>
                    && waiting[0] in old(store.attempts).vals
                    && r == Ok(Some(ClaimedFrom(old(store.attempts).vals[waiting[0]], token, expires)))
                    && store.attempts == old(store.attempts).Put(waiting[0], r.value.value))
              && (waiting != [] && !stored ==>
                   r == Err(CommitRefused) && store.log == old(store.log) && store.attempts == old(store.attempts))
    {
      var waiting := QueuedIds(store.attempts);
      if waiting == [] { return Ok(None); }
      QueuedFirst(store.attempts.keys, store.attempts.vals);
      var claimed := Claim(waiting[0], token, expires, stored);
      return if claimed.Ok? then Ok(Some(claimed.value)) else Err(claimed.error);
    }

    method Claim(id: string, token: string, expires: int, stored: bool) returns (r: Answer)
      requires store.Sound()
      modifies store`log, store`attempts
      ensures store.Sound() && (old(CapacityLog(store.log)) ==> CapacityLog(store.log))
      ensures id !in old(store.attempts).vals ==> r == Err(NotFound)
      ensures id in old(store.attempts).vals && !old(store.attempts).vals[id].status.Queued? ==> r == Err(InvalidClaim)
      ensures id in old(store.attempts).vals && old(store.attempts).vals[id].status.Queued? ==>
                r == if stored then Ok(ClaimedFrom(old(store.attempts).vals[id], token, expires))
                    else Err(CommitRefused)
      ensures r.Ok? ==> store.attempts == old(store.attempts).Put(id, r.value)
                        && store.log == old(store.log + [store.Record(WorkerClaimed, r.value)])
      ensures r.Err? ==> store.attempts == old(store.attempts) && store.log == old(store.log)
    {
      if id !in store.attempts.vals { return Err(NotFound); }
      var a := store.attempts.vals[id];
      if !a.status.Queued? { return Err(InvalidClaim); }
      SafeLogReplays(store.log);
      var updated := ClaimedFrom(a, token, expires);
      store.CommitThenShow(WorkerClaimed, updated, stored);
      return if stored then Ok(updated) else Err(CommitRefused);
    }

    method Requeue(id: string, checkpoints: Option<map<string, bool>>, stored: bool) returns (r: Answer)
      requires store.Sound()
      modifies store`log, store`attempts
      ensures store.Sound() && (old(CapacityLog(store.log)) ==> CapacityLog(store.log))
      ensures id !in old(store.attempts).vals ==> r == Err(NotFound)
      ensures id in old(store.attempts).vals ==>
                var a := old(store.attempts).vals[id];
                r == if a.status.Queued? then Ok(a)
                     else if !Requeueable(a.status) then Err(InvalidTransition)
                     else if !SafeToRequeue(a, checkpoints) then Err(NotResumable)
                     else if stored then Ok(RequeuedFrom(a)) else Err(CommitRefused)
      ensures store.attempts == if r.Ok? then old(store.attempts).Put(id, r.value) else old(store.attempts)
      ensures store.attempts.keys == old(store.attempts).keys
      ensures store.log == if r.Ok? && !old(store.attempts).vals[id].status.Queued?
                           then old(store.log)
                               + [old(store.Record(WorkerRequeued, RequeuedFrom(store.attempts.vals[id])))]
                           else old(store.log)
    {
      if id !in store.attempts.vals { return Err(NotFound); }
      var a := store.attempts.vals[id];
      if a.status.Queued? {
        assert store.attempts.vals[id := a] == store.attempts.vals;
        return Ok(a);
      }
      if Terminal(a.status) || !Requeueable(a.status) { return Err(InvalidTransition); }
      if !SafeToRequeue(a, checkpoints) { return Err(NotResumable); }
      SafeLogReplays(store.log);
      var updated := RequeuedFrom(a);
      store.CommitThenShow(WorkerRequeued, updated, stored);
      return if stored then Ok(updated) else Err(CommitRefused);
    }

    /** Starts a new attempt from a safe checkpoint. It asks nothing about room in the session. */
    method Recover(id: string, checkpoints: map<string, bool>, freshId: string, now: int, stored: bool)
      returns (r: Answer)
      requires store.Sound() && freshId !in store.attempts.vals
      modifies store`log, store`attempts, store`attemptSession
      ensures store.Sound()
      ensures r.Ok? <==> stored && id in old(store.attempts).vals
                         && SafeToRequeue(old(store.attempts).vals[id], Some(checkpoints))
                         && old(store.attempts).vals[id].safeToResume
      ensures r.Ok? ==>
                && var previous := old(store.attempts).vals[id];
                && var made := NewAttempt(
                     freshId, previous.workerSessionId, previous.childTaskId, previous.workspace, now);
                && r.value == made.(resumedFrom := Some(id), recoveryCheckpoint := ResumePoint(previous),
                                     checkpoint := ResumePoint(previous), safeToResume := true)
                && store.attempts == old(store.attempts).Put(freshId, r.value)
                && store.log == old(store.log)
                     + [WorkerEvent(WorkerQueued, r.value,
                         EnqueueSession(map[], freshId, old(SessionOf(store.Live(), id))))]
      ensures r.Err? ==> store.attempts == old(store.attempts) && store.log == old(store.log)
      ensures r.Err? ==>
                r.error == if id !in old(store.attempts).vals then NotFound
                           else if !(SafeToRequeue(old(store.attempts).vals[id], Some(checkpoints))
                                     && old(store.attempts).vals[id].safeToResume) then NotResumable
                           else CommitRefused
    {
      if id !in store.attempts.vals { return Err(NotFound); }
      SafeLogReplays(store.log);
      var previous := store.attempts.vals[id];
      if !SafeToRequeue(previous, Some(checkpoints)) || !previous.safeToResume { return Err(NotResumable); }
      var point := ResumePoint(previous);
      var recovery := WorkerAttempt(
        freshId, 1, previous.workerSessionId, previous.childTaskId, previous.workspace, None,
        Queued, Some(previous.id), point, None, None, point, true, now);
      r := Enqueue(recovery, if id in store.attemptSession then Some(store.attemptSession[id]) else None, stored);
    }

    method AckTerminal(id: string, status: Option<AttemptStatus>, stored: bool) returns (r: Answer)
      requires store.Sound()
      modifies store`log, store`terminalAcks
      ensures store.Sound() && (old(CapacityLog(store.log)) ==> CapacityLog(store.log))
      ensures id !in store.attempts.vals ==> r == Err(NotFound)
      ensures id in store.attempts.vals ==>
                var a := store.attempts.vals[id];
                r == if !Terminal(a.status) || (status.Some? && status.value != a.status) then Err(InvalidTransition)
                     else if id in old(store.terminalAcks) || stored then Ok(a) else Err(CommitRefused)
      ensures store.terminalAcks == if r.Ok? then old(store.terminalAcks) + {id} else old(store.terminalAcks)
      ensures store.log == if r.Ok? && id !in old(store.terminalAcks)
                           then old(store.log) + [old(store.Record(WorkerTerminalAck, store.attempts.vals[id]))]
                           else old(store.log)
    {
      if id !in store.attempts.vals { return Err(NotFound); }
      var a := store.attempts.vals[id];
      if !Terminal(a.status) { return Err(InvalidTransition); }
      if status.Some? && status.value != a.status { return Err(InvalidTransition); }
      if id in store.terminalAcks {
        assert store.terminalAcks + {id} == store.terminalAcks;
        return Ok(a);
      }
      SafeLogReplays(store.log);
      AckApplied(store.log, store.Live(), a);
      store.Commit(store.Record(WorkerTerminalAck, a), stored);
      if !stored { return Err(CommitRefused); }
      store.terminalAcks := store.terminalAcks + {id};
      return Ok(a);
    }
  }

  lemma AckApplied(log: seq<Event>, s: State, a: WorkerAttempt)
    requires SafeLog(log) && Replay(log) == Some(s)
    requires a.id in s.attempts.vals && s.attempts.vals[a.id] == a && Terminal(a.status)
    ensures var e := WorkerEvent(WorkerTerminalAck, a, SessionOf(s, a.id));
            && SafeLog(log + [e]) && Replay(log + [e]) == Some(s.(terminalAcks := s.terminalAcks + {a.id}))
            && (CapacityLog(log) ==> CapacityLog(log + [e]))
  {
    var e := WorkerEvent(WorkerTerminalAck, a, SessionOf(s, a.id));
    SafeLogReplays(log);
    SafeLogSnoc(log, e);
    ReplaySnoc(log, e);
    BindSame(s.attemptSession, a.id);
    assert s.attempts.vals[a.id := a] == s.attempts.vals;
    assert (log + [e])[..|log|] == log;
  }

  lemma QueuedFirst(keys: seq<string>, vals: map<string, WorkerAttempt>)
    ensures QueuedIn(keys, vals) != [] ==>
              QueuedIn(keys, vals)[0] in vals && vals[QueuedIn(keys, vals)[0]].status.Queued?
  {
    if keys != [] { QueuedFirst(keys[1..], vals); }
  }
}

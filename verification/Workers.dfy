/** Admission of plans, claim renewal, and pause and cancel requests. */
module Workers {
  import opened Prelude
  import opened Domain
  import opened StateMachine
  import opened Projection
  import opened AttemptHistory
  import opened Store
  import opened Execution

  /** One planned child, with the fresh values its attempt is built from. */
  datatype Child = Child(attemptId: string, workerSessionId: string, childTaskId: string, workspace: Option<string>,
                         now: int)

  function AttemptOf(c: Child): WorkerAttempt {
    NewAttempt(c.attemptId, c.workerSessionId, c.childTaskId, c.workspace, c.now)
  }

  function QueuedEvent(c: Child, sessionId: string): Event {
    WorkerEvent(WorkerQueued, AttemptOf(c), if Present(Some(sessionId)) then Some(sessionId) else None)
  }

  function QueuedEvents(children: seq<Child>, sessionId: string): (es: seq<Event>)
    ensures |es| == |children|
  {
    if children == [] then []
    else QueuedEvents(children[..|children| - 1], sessionId) + [QueuedEvent(children[|children| - 1], sessionId)]
  }

  predicate FreshIds(children: seq<Child>, d: Dict<WorkerAttempt>) {
    && (forall i :: 0 <= i < |children| ==> children[i].attemptId !in d.vals)
    && (forall i, j :: 0 <= i < j < |children| ==> children[i].attemptId != children[j].attemptId)
  }

  class CheckpointStore {
    /** Checkpoint id to its safe-to-resume flag. */
    var flags: map<string, bool>

    constructor ()
      ensures flags == map[]
    {
      flags := map[];
    }
  }

  class ExecutionManager {
    const store: Store
    const queue: LocalExecutionQueue

    ghost predicate Wired() {
      queue.store == store
    }

    constructor (store: Store)
      ensures this.store == store && Wired()
    {
      this.store := store;
      queue := new LocalExecutionQueue(store);
    }

    function ActiveForSession(sessionId: string): nat
      reads store
    {
      |set id | id in store.attempts.vals.Keys && !Terminal(store.attempts.vals[id].status)
                && id in store.attemptSession && store.attemptSession[id] == sessionId|
    }

    lemma CountsActive(sessionId: string)
      ensures ActiveForSession(sessionId) == |ActiveSet(store.Live(), sessionId)|
    {
      assert (set id | id in store.attempts.vals.Keys && !Terminal(store.attempts.vals[id].status)
                       && id in store.attemptSession && store.attemptSession[id] == sessionId)
          == ActiveSet(store.Live(), sessionId);
    }

    method ValidateCapacity(sessionId: string, requested: nat) returns (r: Result<(), Error>)
      ensures r == if requested > MAX_WORKERS then Err(WorkerLimitExceeded)
                   else if sessionId !in store.sessions then Err(NotFound)
                   else if |ActiveSet(store.Live(), sessionId)| + requested > store.sessions[sessionId].maxActiveWorkers
                   then Err(WorkerLimitExceeded)
                   else Ok(())
    {
      if requested > MAX_WORKERS { return Err(WorkerLimitExceeded); }
      if sessionId !in store.sessions { return Err(NotFound); }
      CountsActive(sessionId);
      var active := ActiveForSession(sessionId);
      if active + requested > store.sessions[sessionId].maxActiveWorkers { return Err(WorkerLimitExceeded); }
      return Ok(());
    }

    /**
     Admits one attempt per child, each with its own commit; storage accepts the first `quota` of them.
     A refusal part way leaves the earlier attempts admitted.
     */
    method EnqueuePlan(sessionId: string, children: seq<Child>, quota: nat)
      returns (r: Result<seq<WorkerAttempt>, Error>)
      requires Wired() && store.Sound() && FreshIds(children, store.attempts)
      modifies store`log, store`attempts, store`attemptSession
      ensures store.Sound()
      ensures old(CapacityLog(store.log)) ==> CapacityLog(store.log)
      ensures var room := |children| <= MAX_WORKERS && sessionId in store.sessions
                          && |ActiveSet(old(store.Live()), sessionId)| + |children|
                               <= store.sessions[sessionId].maxActiveWorkers;
              && (!room ==>
                    && r == Err(if |children| <= MAX_WORKERS && sessionId !in store.sessions then NotFound
                                else WorkerLimitExceeded)
                    && store.log == old(store.log) && store.attempts == old(store.attempts))
              && (room ==> store.log == old(store.log)
                             + QueuedEvents(if quota < |children| then children[..quota] else children, sessionId))
              && (room && quota >= |children| ==>
                    && r.Ok? && |r.value| == |children|
                    && forall i :: 0 <= i < |children| ==> r.value[i] == AttemptOf(children[i]))
              && (room && quota < |children| ==> r == Err(CommitRefused))
    {
      var room := ValidateCapacity(sessionId, |children|);
      if room.Err? { return Err(room.error); }
      r := EnqueueChildren(sessionId, children, quota);
    }

    method EnqueueChildren(sessionId: string, children: seq<Child>, quota: nat)
      returns (r: Result<seq<WorkerAttempt>, Error>)
      requires Wired() && store.Sound() && FreshIds(children, store.attempts)
      requires sessionId in store.sessions
      requires |ActiveSet(store.Live(), sessionId)| + |children| <= store.sessions[sessionId].maxActiveWorkers
      modifies store`log, store`attempts, store`attemptSession
      ensures store.Sound() && (old(CapacityLog(store.log)) ==> CapacityLog(store.log))
      ensures store.log == old(store.log)
                           + QueuedEvents(if quota < |children| then children[..quota] else children, sessionId)
      ensures if quota < |children| then r == Err(CommitRefused)
              else
                && r.Ok? && |r.value| == |children|
                && forall i :: 0 <= i < |children| ==> r.value[i] == AttemptOf(children[i])
    {
      var done := [];
      ghost var log0, room := store.log, |ActiveSet(store.Live(), sessionId)| + |children|;
      for i := 0 to |children|
        invariant store.Sound() && (CapacityLog(log0) ==> CapacityLog(store.log)) && i <= quota
        invariant store.log == log0 + QueuedEvents(children[..i], sessionId)
        invariant FreshIds(children[i..], store.attempts)
        invariant |ActiveSet(store.Live(), sessionId)| + |children| - i <= room
        invariant |done| == i && forall j :: 0 <= j < i ==> done[j] == AttemptOf(children[j])
      {
        TailHead(children, i);
        QueuedSnoc(log0, children, i, sessionId);
        ghost var d := store.attempts;
        var answer := EnqueueChild(sessionId, children[i], i < quota);
        if answer.Err? { return Err(CommitRefused); }
        StillFresh(children[i..], d, AttemptOf(children[i]));
        done := done + [answer.value];
      }
      TakeAll(children);
      return Ok(done);
    }

    method EnqueueChild(sessionId: string, c: Child, stored: bool) returns (r: Answer)
      requires Wired() && store.Sound() && c.attemptId !in store.attempts.vals
      requires sessionId in store.sessions
      requires |ActiveSet(store.Live(), sessionId)| < store.sessions[sessionId].maxActiveWorkers
      modifies store`log, store`attempts, store`attemptSession
      ensures store.Sound() && (old(CapacityLog(store.log)) ==> CapacityLog(store.log))
      ensures r == if stored then Ok(AttemptOf(c)) else Err(CommitRefused)
      ensures !stored ==> store.log == old(store.log) && store.attempts == old(store.attempts)
      ensures stored ==> store.log == old(store.log) + [QueuedEvent(c, sessionId)]
                         && store.attempts == old(store.attempts).Put(c.attemptId, AttemptOf(c))
                         && |ActiveSet(store.Live(), sessionId)| <= |ActiveSet(old(store.Live()), sessionId)| + 1
    {
      ghost var s, log := store.Live(), store.log;
      r := queue.Enqueue(AttemptOf(c), Some(sessionId), stored);
      if stored {
        ReplaySnoc(log, QueuedEvent(c, sessionId));
        AdmissionStep(log, s, QueuedEvent(c, sessionId), store.Live(), sessionId);
      }
    }

    method Heartbeat(id: string, token: string, now: int, ttl: int, stored: bool) returns (r: Answer)
      requires store.Sound()
      modifies store`log, store`attempts
      ensures SafeLog(store.log) && (store.Synced() <==> r != Err(CommitRefused))
      ensures old(CapacityLog(store.log)) ==> CapacityLog(store.log)
      ensures id !in old(store.attempts).vals ==> r == Err(NotFound)
      ensures id in old(store.attempts).vals ==>
                var a := old(store.attempts).vals[id];
                var valid := (a.status.Claimed? || a.status.Running?) && token != "" && a.claimToken == Some(token)
                             && a.claimExpires.Some? && a.claimExpires.value > now;
                r == if !valid then Err(InvalidClaim) else if !stored then Err(CommitRefused)
                     else Ok(a.(claimExpires := Some(now + ttl), version := a.version + 1))
      ensures r.Ok? ==> store.attempts == old(store.attempts).Put(id, r.value)
                        && store.log == old(store.log) + [store.Record(WorkerHeartbeat, r.value)]
      ensures r.Err? ==> store.log == old(store.log)
      ensures r.Err? && r.error != CommitRefused ==> store.attempts == old(store.attempts)
    {
      if id !in store.attempts.vals { return Err(NotFound); }
      var a := store.attempts.vals[id];
      if !Present(a.claimToken) || a.claimExpires.None? { return Err(InvalidClaim); }
      if !(a.status.Claimed? || a.status.Running?) || a.claimToken.value != token || a.claimExpires.value <= now {
        return Err(InvalidClaim);
      }
      SafeLogReplays(store.log);
      var updated := a.(claimExpires := Some(now + ttl), version := a.version + 1);
      store.ShowThenCommit(WorkerHeartbeat, updated, stored);
      return if stored then Ok(updated) else Err(CommitRefused);
    }

    /**
     Records a pause or cancel request on a running attempt. The request's own event has no replay
     arm; the checkpoint event behind it is what a restart sees, so both commits must be stored.
     */
    method RequestControl(id: string, pause: bool, now: int, quota: nat) returns (r: Answer)
      requires store.Sound()
      modifies store`log, store`attempts
      ensures SafeLog(store.log) && (store.Synced() <==> r != Err(CommitRefused))
      ensures old(CapacityLog(store.log)) ==> CapacityLog(store.log)
      ensures id !in old(store.attempts).vals ==> r == Err(NotFound)
      ensures id in old(store.attempts).vals && !old(store.attempts).vals[id].status.Running? ==>
                r == Ok(old(store.attempts).vals[id]) && store.attempts == old(store.attempts)
                    && store.log == old(store.log)
      ensures id in old(store.attempts).vals && old(store.attempts).vals[id].status.Running? ==>
                var a := old(store.attempts).vals[id];
                && store.attempts == old(store.attempts).Put(id, ControlRequested(a, pause, now))
                && r == if quota >= 2 then Ok(ControlRequested(a, pause, now)) else Err(CommitRefused)
      ensures id in old(store.attempts).vals && old(store.attempts).vals[id].status.Running? ==>
                var moved := ControlRequested(old(store.attempts).vals[id], pause, now);
                store.log == old(store.log) + UpTo(ControlEvents(store.attemptSession, moved, pause), quota)
      ensures r.Err? && r.error != CommitRefused ==>
                store.attempts == old(store.attempts) && store.log == old(store.log)
    {
      if id !in store.attempts.vals { return Err(NotFound); }
      var a := store.attempts.vals[id];
      if Terminal(a.status) || !a.status.Running? { return Ok(a); }
      SafeLogReplays(store.log);
      var target := if pause then PauseRequested else CancelRequested;
      var moved := TransitionAttempt(a, target, a.version, NoConditions, now);
      store.ShowThenCommitTwice(if pause then WorkerPauseRequested else WorkerCancelRequested, moved.value, quota);
      return if quota >= 2 then Ok(moved.value) else Err(CommitRefused);
    }
  }

  /** A control request's own event, and the checkpoint event a restart reads. */
  function ControlEvents(sessions: map<string, string>, moved: WorkerAttempt, pause: bool): seq<Event> {
    [Noted(sessions, if pause then WorkerPauseRequested else WorkerCancelRequested, moved),
     Noted(sessions, WorkerCheckpointed, moved)]
  }

  function ControlRequested(a: WorkerAttempt, pause: bool, now: int): WorkerAttempt {
    a.(status := if pause then PauseRequested else CancelRequested, version := a.version + 1, updatedAt := now)
  }

  lemma QueuedSnoc(log: seq<Event>, children: seq<Child>, i: nat, sessionId: string)
    requires i < |children|
    ensures log + QueuedEvents(children[..i], sessionId) + [QueuedEvent(children[i], sessionId)]
         == log + QueuedEvents(children[..i + 1], sessionId)
  {
    TakeSnoc(children, i);
    Associative(log, QueuedEvents(children[..i], sessionId), [QueuedEvent(children[i], sessionId)]);
  }

  lemma StillFresh(children: seq<Child>, d: Dict<WorkerAttempt>, a: WorkerAttempt)
    requires children != [] && FreshIds(children, d) && a.id == children[0].attemptId
    ensures FreshIds(children[1..], d.Put(a.id, a))
  {}

  lemma AdmissionStep(log: seq<Event>, s: State, e: Event, t: State, sessionId: string)
    requires SafeLog(log) && Replay(log) == Some(s)
    requires e.WorkerEvent? && e.workerKind.WorkerQueued?
               && e.sessionId == (if Present(Some(sessionId)) then Some(sessionId) else None)
    requires EventOk(s, e) && Apply(s, e) == Some(t)
    requires sessionId in s.sessions && |ActiveSet(s, sessionId)| < s.sessions[sessionId].maxActiveWorkers
    ensures |ActiveSet(t, sessionId)| <= |ActiveSet(s, sessionId)| + 1
    ensures CapacityLog(log) ==> CapacityLog(log + [e])
  {
    SafeLogReplays(log);
    ActiveStep(s, e, sessionId);
    assert (log + [e])[..|log|] == log;
  }
}

/**
 Worker attempts over whole runs. A run, restarts included, is its journal: every state the services
 show is the replay of a prefix of it. `SafeLog` says what each event may do to the state before it;
 the services keep it (module Execution), and the lemmas here say what it gives at every later point.
 */
module AttemptHistory {
  import opened Prelude
  import opened Domain
  import opened StateMachine
  import opened Projection

  /** Queued attempts hold no claim; claimed and running ones do. */
  predicate TokenOk(a: WorkerAttempt) {
    && (a.status.Queued? ==> a.claimToken.None?)
    && (a.status.Claimed? || a.status.Running? ==> a.claimToken.Some?)
  }

  predicate SafeChange(kind: WorkerEventKind, was: WorkerAttempt, a: WorkerAttempt) {
    && a.id == was.id
    && a.workerSessionId == was.workerSessionId && a.childTaskId == was.childTaskId
    && a.resumedFrom == was.resumedFrom && a.recoveryCheckpoint == was.recoveryCheckpoint
    && was.version <= a.version
    && Edge(was.status, a.status)
    && TokenOk(a)
    && (kind.WorkerClaimed? ==> was.status.Queued? && a.status.Claimed?)
    && (was.status.Queued? && !a.status.Queued? ==> kind.WorkerClaimed?)
    && (!was.status.Queued? && a.status.Queued? ==> kind.WorkerRequeued? || kind.WorkerRecovered?)
    && (kind.WorkerTerminalAck? ==> a == was && Terminal(a.status))
  }

  predicate EventOk(s: State, e: Event) {
    match e
    case SessionCreated(session) => session.id !in s.sessions
    case WorkerEvent(kind, a, sessionId) =>
      if kind.WorkerQueued? then a.id !in s.attempts.vals && a.status.Queued? && a.claimToken.None?
      else if !Replayed(kind) then true
      else
        && a.id in s.attempts.vals && SafeChange(kind, s.attempts.vals[a.id], a)
        && (Present(sessionId) ==> sessionId == SessionOf(s, a.id))
    case LeaseReleased(id) => id in s.leases.vals
    case _ => true
  }

  predicate SafeLog(log: seq<Event>) {
    log == [] || (
      && SafeLog(log[..|log| - 1])
      && Replay(log[..|log| - 1]).Some?
      && EventOk(Replay(log[..|log| - 1]).value, log[|log| - 1]))
  }

  /** Facts about every state a safe log replays to. */
  ghost predicate StateOk(s: State) {
    && s.attempts.Valid()
    && (forall id :: id in s.attempts.vals ==> s.attempts.vals[id].id == id && TokenOk(s.attempts.vals[id]))
    && (forall id :: id in s.attemptSession ==> id in s.attempts.vals)
    && s.terminalAcks <= s.attempts.vals.Keys
    && (forall id :: id in s.terminalAcks ==> Terminal(s.attempts.vals[id].status))
  }

  lemma ApplyOk(s: State, e: Event)
    requires StateOk(s) && EventOk(s, e)
    ensures Apply(s, e).Some? && StateOk(Apply(s, e).value)
  {
    if e.WorkerEvent? && Replayed(e.workerKind) {
      RecordedOk(s, e.workerKind, e.attempt, e.sessionId);
    }
  }

  lemma RecordedOk(s: State, kind: WorkerEventKind, a: WorkerAttempt, sessionId: Option<string>)
    requires StateOk(s) && Replayed(kind) && EventOk(s, WorkerEvent(kind, a, sessionId))
    ensures StateOk(Recorded(s, kind, a, sessionId))
  {
    PutValid(s.attempts, a.id, a);
    var t := Recorded(s, kind, a, sessionId);
    assert TokenOk(a);
    forall id | id in t.terminalAcks ensures id in t.attempts.vals && Terminal(t.attempts.vals[id].status) {}
  }

  lemma {:induction false} SafeLogReplays(log: seq<Event>)
    requires SafeLog(log)
    ensures Replay(log).Some? && StateOk(Replay(log).value)
  {
    if log != [] {
      SafeLogReplays(log[..|log| - 1]);
      ApplyOk(Replay(log[..|log| - 1]).value, log[|log| - 1]);
    }
  }

  lemma SafeLogSnoc(log: seq<Event>, e: Event)
    requires SafeLog(log) && Replay(log).Some? && EventOk(Replay(log).value, e)
    ensures SafeLog(log + [e])
  {
    assert (log + [e])[..|log|] == log;
  }

  // ---------- The states of a run ----------

  predicate Step(s: State, e: Event, t: State) {
    EventOk(s, e) && Apply(s, e) == Some(t)
  }

  /** The states before, between and after the events of a log. */
  ghost predicate Trace(log: seq<Event>, states: seq<State>) {
    && |states| == |log| + 1 && states[0] == Initial
    && (forall i :: 0 <= i < |log| ==> Step(states[i], log[i], states[i + 1]))
  }

  ghost function States(log: seq<Event>): seq<State> {
    if log == [] then [Initial]
    else States(log[..|log| - 1]) + [if Replay(log).Some? then Replay(log).value else Initial]
  }

  /** A safe log has a trace, and its states are the replays of its prefixes. */
  lemma {:induction false} SafeLogTrace(log: seq<Event>)
    requires SafeLog(log)
    ensures Trace(log, States(log))
    ensures forall i :: 0 <= i <= |log| ==> Replay(log[..i]) == Some(States(log)[i])
  {
    SafeLogReplays(log);
    if log != [] {
      var front, last := log[..|log| - 1], log[|log| - 1];
      SafeLogTrace(front);
      TakeAll(front);
      TakeAll(log);
      forall i | 0 <= i <= |log| ensures Replay(log[..i]) == Some(States(log)[i]) {
        if i < |log| { assert front[..i] == log[..i]; }
      }
      FrontAndLast(log);
      TraceSnoc(front, States(front), last, Replay(log).value);
    }
  }

  lemma TraceSnoc(log: seq<Event>, states: seq<State>, e: Event, t: State)
    requires Trace(log, states) && Step(states[|log|], e, t)
    ensures Trace(log + [e], states + [t])
  {}

  lemma {:induction false} TraceOk(log: seq<Event>, states: seq<State>, i: nat)
    requires Trace(log, states) && i <= |log|
    ensures StateOk(states[i])
  {
    if i > 0 {
      TraceOk(log, states, i - 1);
      assert Step(states[i - 1], log[i - 1], states[i]);
      ApplyOk(states[i - 1], log[i - 1]);
    }
  }

  // ---------- Evolution of one attempt ----------

  /** What time may do to an attempt. */
  predicate Evolves(was: WorkerAttempt, a: WorkerAttempt) {
    && a.id == was.id && a.workerSessionId == was.workerSessionId && a.childTaskId == was.childTaskId
    && a.resumedFrom == was.resumedFrom && a.recoveryCheckpoint == was.recoveryCheckpoint
    && was.version <= a.version
    && (Terminal(was.status) ==> a.status == was.status)
    && (was.status.CancelRequested? ==> a.status.CancelRequested? || a.status.Cancelled? || a.status.Failed?)
  }

  /** What time may do to a state. */
  ghost predicate Later(s: State, t: State) {
    && (forall id :: id in s.attempts.vals ==>
         id in t.attempts.vals && Evolves(s.attempts.vals[id], t.attempts.vals[id]))
    && s.attempts.keys <= t.attempts.keys
    && s.terminalAcks <= t.terminalAcks
    && (forall id :: id in s.attemptSession ==> id in t.attemptSession && t.attemptSession[id] == s.attemptSession[id])
  }

  /**
   From any point of a run to any later one: no attempt disappears, changes identity or goes back a
   version; a terminal status stays; a persisted cancel request can only end cancelled or failed; the
   queue order, session bindings and acknowledgements only grow.
   */
  lemma {:induction false} AttemptSafety(log: seq<Event>, states: seq<State>, i: nat, j: nat)
    requires Trace(log, states) && i <= j <= |log|
    ensures Later(states[i], states[j])
    decreases j
  {
    if i < j {
      AttemptSafety(log, states, i, j - 1);
      TraceStep(log, states, j - 1);
      LaterTransitive(states[i], states[j - 1], states[j]);
    } else {
      LaterReflexive(states[i]);
    }
  }

  lemma TraceStep(log: seq<Event>, states: seq<State>, i: nat)
    requires Trace(log, states) && i < |log|
    ensures Later(states[i], states[i + 1])
  {
    TraceOk(log, states, i);
    assert Step(states[i], log[i], states[i + 1]);
    StepEvolves(states[i], log[i]);
  }

  lemma LaterReflexive(s: State)
    ensures Later(s, s)
  {}

  lemma LaterTransitive(s: State, t: State, u: State)
    requires Later(s, t) && Later(t, u)
    ensures Later(s, u)
  {}

  lemma StepEvolves(s: State, e: Event)
    requires StateOk(s) && EventOk(s, e) && Apply(s, e).Some?
    ensures Later(s, Apply(s, e).value)
  {
    if e.WorkerEvent? && Replayed(e.workerKind) {
      RecordedEvolves(s, e.workerKind, e.attempt, e.sessionId);
    }
  }

  lemma RecordedEvolves(s: State, kind: WorkerEventKind, a: WorkerAttempt, sessionId: Option<string>)
    requires StateOk(s) && Replayed(kind) && EventOk(s, WorkerEvent(kind, a, sessionId))
    ensures Later(s, Recorded(s, kind, a, sessionId))
  {
    if a.id in s.attempts.vals { assert Evolves(s.attempts.vals[a.id], a); }
  }

  predicate IsClaim(e: Event, id: string) {
    e.WorkerEvent? && e.workerKind.WorkerClaimed? && e.attempt.id == id
  }

  predicate IsRequeue(e: Event, id: string) {
    e.WorkerEvent? && (e.workerKind.WorkerRequeued? || e.workerKind.WorkerRecovered?) && e.attempt.id == id
  }

  /** Two claims of one attempt are separated by a requeue or a start-up recovery of it. */
  lemma ClaimsSeparated(log: seq<Event>, states: seq<State>, i: nat, j: nat, id: string)
    requires Trace(log, states) && i < j < |log|
    requires IsClaim(log[i], id) && IsClaim(log[j], id)
    ensures exists k :: i < k < j && IsRequeue(log[k], id)
  {
    TraceOk(log, states, i);
    assert Step(states[i], log[i], states[i + 1]) && Step(states[j], log[j], states[j + 1]);
    BackToQueued(log, states, i + 1, j, id);
  }

  ghost predicate WaitingIn(s: State, id: string) {
    id in s.attempts.vals && s.attempts.vals[id].status.Queued?
  }

  lemma {:induction false} BackToQueued(log: seq<Event>, states: seq<State>, i: nat, j: nat, id: string)
    requires Trace(log, states) && i <= j <= |log|
    requires id in states[i].attempts.vals && !WaitingIn(states[i], id) && WaitingIn(states[j], id)
    ensures exists k :: i <= k < j && IsRequeue(log[k], id)
    decreases j
  {
    if i < j {
      AttemptSafety(log, states, i, j - 1);
      TraceOk(log, states, j - 1);
      assert Step(states[j - 1], log[j - 1], states[j]);
      if WaitingIn(states[j - 1], id) {
        BackToQueued(log, states, i, j - 1, id);
      } else {
        RequeuedBy(states[j - 1], log[j - 1], id);
      }
    }
  }

  lemma RequeuedBy(s: State, e: Event, id: string)
    requires StateOk(s) && EventOk(s, e) && Apply(s, e).Some? && id in s.attempts.vals
    requires !WaitingIn(s, id) && WaitingIn(Apply(s, e).value, id)
    ensures IsRequeue(e, id)
  {}

  // ---------- First in, first out ----------

  function EnqueueOrder(log: seq<Event>): seq<string> {
    if log == [] then []
    else
      var e := log[|log| - 1];
      EnqueueOrder(log[..|log| - 1]) + if e.WorkerEvent? && e.workerKind.WorkerQueued? then [e.attempt.id] else []
  }

  /** The dictionary order at any point is the order of the enqueue events so far. */
  lemma {:induction false} OrderIsEnqueueOrder(log: seq<Event>)
    requires SafeLog(log)
    ensures Replay(log).Some? && Replay(log).value.attempts.keys == EnqueueOrder(log)
  {
    SafeLogReplays(log);
    if log != [] {
      OrderIsEnqueueOrder(log[..|log| - 1]);
      SafeLogReplays(log[..|log| - 1]);
    }
  }

  // ---------- Capacity ----------

  predicate Occupies(s: State, sessionId: string, id: string) {
    && id in s.attempts.vals && !Terminal(s.attempts.vals[id].status)
    && id in s.attemptSession && s.attemptSession[id] == sessionId
  }

  function ActiveSet(s: State, sessionId: string): set<string> {
    set id | id in s.attempts.vals.Keys && Occupies(s, sessionId, id)
  }

  /** Admissions that found room in their session. */
  predicate Admitted(s: State, e: Event) {
    e.WorkerEvent? && e.workerKind.WorkerQueued? && Present(e.sessionId) ==>
      e.sessionId.value in s.sessions
          && |ActiveSet(s, e.sessionId.value)| < s.sessions[e.sessionId.value].maxActiveWorkers
  }

  predicate CapacityLog(log: seq<Event>) {
    log == [] || (
      && CapacityLog(log[..|log| - 1])
      && Replay(log[..|log| - 1]).Some?
      && Admitted(Replay(log[..|log| - 1]).value, log[|log| - 1]))
  }

  ghost predicate WithinCapacity(s: State) {
    forall sid :: sid in s.sessions ==> |ActiveSet(s, sid)| <= s.sessions[sid].maxActiveWorkers
  }

  /** No session exceeds its worker cap at any point of a run whose admissions were all checked. */
  lemma {:induction false} CapacityOverRuns(log: seq<Event>)
    requires SafeLog(log) && CapacityLog(log)
    ensures Replay(log).Some? && WithinCapacity(Replay(log).value)
    ensures forall sid :: sid in Replay(log).value.sessions ==> |ActiveSet(Replay(log).value, sid)| <= MAX_WORKERS
    ensures forall id :: id in Replay(log).value.attemptSession ==>
              Replay(log).value.attemptSession[id] in Replay(log).value.sessions
  {
    SafeLogReplays(log);
    if log == [] {
      assert WithinCapacity(Initial);
    } else {
      var s, e := Replay(log[..|log| - 1]).value, log[|log| - 1];
      CapacityOverRuns(log[..|log| - 1]);
      SafeLogReplays(log[..|log| - 1]);
      CapacityStep(s, e);
    }
  }

  lemma CapacityStep(s: State, e: Event)
    requires StateOk(s) && EventOk(s, e) && Admitted(s, e) && WithinCapacity(s) && Apply(s, e).Some?
    requires forall id :: id in s.attemptSession ==> s.attemptSession[id] in s.sessions
    ensures WithinCapacity(Apply(s, e).value)
  {
    var t := Apply(s, e).value;
    forall sid | sid in t.sessions ensures |ActiveSet(t, sid)| <= t.sessions[sid].maxActiveWorkers {
      ActiveStep(s, e, sid);
      if sid !in s.sessions { assert ActiveSet(s, sid) == {}; }
    }
  }

  lemma SubsetSize<T>(a: set<T>, b: set<T>)
    requires a <= b
    ensures |a| <= |b|
  {
    if a != {} {
      var x :| x in a;
      SubsetSize(a - {x}, b - {x});
    }
  }

  lemma ActiveStep(s: State, e: Event, sid: string)
    requires StateOk(s) && EventOk(s, e) && Apply(s, e).Some?
    ensures var t := Apply(s, e).value;
            var admits :=
              e.WorkerEvent? && e.workerKind.WorkerQueued? && Present(e.sessionId) && e.sessionId.value == sid;
            |ActiveSet(t, sid)| <= |ActiveSet(s, sid)| + if admits then 1 else 0
  {
    if e.WorkerEvent? && Replayed(e.workerKind) {
      ActiveRecorded(s, e.workerKind, e.attempt, e.sessionId, sid);
    } else {
      assert ActiveSet(Apply(s, e).value, sid) == ActiveSet(s, sid);
    }
  }

  lemma ActiveRecorded(s: State, kind: WorkerEventKind, a: WorkerAttempt, sessionId: Option<string>, sid: string)
    requires StateOk(s) && Replayed(kind) && EventOk(s, WorkerEvent(kind, a, sessionId))
    ensures |ActiveSet(Recorded(s, kind, a, sessionId), sid)|
         <= |ActiveSet(s, sid)| + if kind.WorkerQueued? && Present(sessionId) && sessionId.value == sid then 1 else 0
  {
    var t := Recorded(s, kind, a, sessionId);
    var admits := kind.WorkerQueued? && Present(sessionId) && sessionId.value == sid;
    forall id | id in ActiveSet(t, sid) && (id != a.id || !admits) ensures id in ActiveSet(s, sid) {
      StillActive(s, kind, a, sessionId, sid, id);
    }
    if admits {
      SubsetSize(ActiveSet(t, sid), ActiveSet(s, sid) + {a.id});
    } else {
      SubsetSize(ActiveSet(t, sid), ActiveSet(s, sid));
    }
  }

  lemma StillActive(s: State, kind: WorkerEventKind, a: WorkerAttempt, sessionId: Option<string>, sid: string,
                    id: string)
    requires StateOk(s) && Replayed(kind) && EventOk(s, WorkerEvent(kind, a, sessionId))
    requires Occupies(Recorded(s, kind, a, sessionId), sid, id)
    requires id == a.id ==> !(kind.WorkerQueued? && Present(sessionId) && sessionId.value == sid)
    ensures Occupies(s, sid, id)
  {}
}

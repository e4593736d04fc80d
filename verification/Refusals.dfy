/**
 Processes that go on after storage has refused a record they already show: what their journal still
 guarantees, and what it does not.
 */
module Refusals {
  import opened Prelude
  import opened Domain
  import opened StateMachine
  import opened Projection
  import opened AttemptHistory

  /** The journal and the attempts the process shows; sessions are bound only with a stored enqueue. */
  datatype Process = Process(log: seq<Event>, attempts: Dict<WorkerAttempt>)

  /**
     An enqueue is stored before it is shown. Other records are shown either before their commit or only
     once it is stored. Elsewhere is everything that concerns no attempt.
   */
  datatype Step =
    | Enqueued(a: WorkerAttempt, sessionId: Option<string>, stored: bool)
    | Worked(kind: WorkerEventKind, a: WorkerAttempt, showFirst: bool, stored: bool)
    | Elsewhere(e: Event, stored: bool)

  function Recording(p: Process, s: Step): Event {
    match s
    case Enqueued(a, sessionId, _) => WorkerEvent(WorkerQueued, a, sessionId)
    case Worked(kind, a, _, _) =>
      WorkerEvent(kind, a, if Replay(p.log).Some? then SessionOf(Replay(p.log).value, a.id) else None)
    case Elsewhere(e, _) => e
  }

  /** The services check what they show, not what the journal holds. */
  predicate StepOk(p: Process, s: Step) {
    match s
    case Enqueued(a, _, _) => a.id !in p.attempts.vals && a.status.Queued? && a.claimToken.None?
    case Worked(kind, a, _, _) =>
      !kind.WorkerQueued? && a.id in p.attempts.vals && SafeChange(kind, p.attempts.vals[a.id], a)
    case Elsewhere(e, _) =>
      !e.WorkerEvent? && Replay(p.log).Some? && EventOk(Replay(p.log).value, e)
  }

  predicate Shows(s: Step) {
    !s.Elsewhere? && (s.stored || (s.Worked? && s.showFirst))
  }

  function Next(p: Process, s: Step): Process {
    Process(if s.stored then p.log + [Recording(p, s)] else p.log,
            if Shows(s) then p.attempts.Put(s.a.id, s.a) else p.attempts)
  }

  function Run(p: Process, steps: seq<Step>): Process
    decreases |steps|
  {
    if steps == [] then p else Run(Next(p, steps[0]), steps[1..])
  }

  predicate RunOk(p: Process, steps: seq<Step>)
    decreases |steps|
  {
    steps == [] || (StepOk(p, steps[0]) && RunOk(Next(p, steps[0]), steps[1..]))
  }

  /** The attempts whose last shown record the journal does not replay. */
  function Owed(owed: set<string>, steps: seq<Step>): set<string>
    decreases |steps|
  {
    if steps == [] then owed else Owed(OwedAfter(owed, steps[0]), steps[1..])
  }

  function OwedAfter(owed: set<string>, s: Step): set<string> {
    if s.Worked? && s.stored && Replayed(s.kind) then owed - {s.a.id}
    else if s.Worked? && Shows(s) then owed + {s.a.id}
    else owed
  }

  // ---------- What the journal keeps ----------

  /** An event on top of a state that may be several steps behind the process that wrote it. */
  predicate EventKept(s: State, e: Event) {
    if e.WorkerEvent? && !e.workerKind.WorkerQueued? && Replayed(e.workerKind) then
      var a := e.attempt;
      && a.id in s.attempts.vals && Evolves(s.attempts.vals[a.id], a) && TokenOk(a)
      && (e.workerKind.WorkerTerminalAck? ==> Terminal(a.status))
      && (Present(e.sessionId) ==> e.sessionId == SessionOf(s, a.id))
    else EventOk(s, e)
  }

  predicate KeptLog(log: seq<Event>) {
    log == [] || (
      && KeptLog(log[..|log| - 1])
      && Replay(log[..|log| - 1]).Some?
      && EventKept(Replay(log[..|log| - 1]).value, log[|log| - 1]))
  }

  lemma ChangeEvolves(kind: WorkerEventKind, was: WorkerAttempt, a: WorkerAttempt)
    requires SafeChange(kind, was, a)
    ensures Evolves(was, a)
  {}

  lemma {:induction false} SafeLogKept(log: seq<Event>)
    requires SafeLog(log)
    ensures KeptLog(log)
  {
    if log != [] {
      SafeLogKept(log[..|log| - 1]);
      var s, e := Replay(log[..|log| - 1]).value, log[|log| - 1];
      if e.WorkerEvent? && !e.workerKind.WorkerQueued? && Replayed(e.workerKind) {
        ChangeEvolves(e.workerKind, s.attempts.vals[e.attempt.id], e.attempt);
      }
    }
  }

  lemma KeptStep(s: State, e: Event)
    requires StateOk(s) && EventKept(s, e)
    ensures Apply(s, e).Some? && StateOk(Apply(s, e).value) && Later(s, Apply(s, e).value)
  {
    if e.WorkerEvent? && !e.workerKind.WorkerQueued? && Replayed(e.workerKind) {
      KeptRecord(s, e.workerKind, e.attempt, e.sessionId);
    } else {
      ApplyOk(s, e);
      StepEvolves(s, e);
    }
  }

  lemma KeptRecord(s: State, kind: WorkerEventKind, a: WorkerAttempt, sessionId: Option<string>)
    requires StateOk(s) && !kind.WorkerQueued? && Replayed(kind) && EventKept(s, WorkerEvent(kind, a, sessionId))
    ensures var t := Recorded(s, kind, a, sessionId);
            StateOk(t) && Later(s, t)
  {
    var t := Recorded(s, kind, a, sessionId);
    PutValid(s.attempts, a.id, a);
    BoundAlready(s, kind, a, sessionId);
    ReplacedLater(s, t, a);
  }

  lemma BoundAlready(s: State, kind: WorkerEventKind, a: WorkerAttempt, sessionId: Option<string>)
    requires !kind.WorkerQueued? && Replayed(kind) && EventKept(s, WorkerEvent(kind, a, sessionId))
    ensures var t := Recorded(s, kind, a, sessionId);
            && t.attempts == s.attempts.Put(a.id, a) && t.attemptSession == s.attemptSession
            && t.terminalAcks == if kind.WorkerTerminalAck? then s.terminalAcks + {a.id} else s.terminalAcks
  {}

  lemma ReplacedLater(s: State, t: State, a: WorkerAttempt)
    requires StateOk(s) && a.id in s.attempts.vals && Evolves(s.attempts.vals[a.id], a) && TokenOk(a)
    requires t.attempts == s.attempts.Put(a.id, a) && t.attempts.Valid() && t.attemptSession == s.attemptSession
    requires t.terminalAcks == s.terminalAcks || (Terminal(a.status) && t.terminalAcks == s.terminalAcks + {a.id})
    ensures StateOk(t) && Later(s, t)
  {}

  lemma {:induction false} KeptLogReplays(log: seq<Event>)
    requires KeptLog(log)
    ensures Replay(log).Some? && StateOk(Replay(log).value)
  {
    if log != [] {
      KeptLogReplays(log[..|log| - 1]);
      KeptStep(Replay(log[..|log| - 1]).value, log[|log| - 1]);
    }
  }

  /**
     Any two starts, however many records were refused between them: no attempt disappears, changes
     identity or goes back a version; a terminal status stays, a recorded cancel request ends cancelled
     or failed, and order, bindings and acknowledgements only grow.
   */
  lemma {:induction false} KeptSafety(log: seq<Event>, i: nat)
    requires KeptLog(log) && i <= |log|
    ensures Replay(log[..i]).Some? && Replay(log).Some? && Later(Replay(log[..i]).value, Replay(log).value)
    decreases |log|
  {
    KeptLogReplays(log);
    if i < |log| {
      var front := log[..|log| - 1];
      KeptSafety(front, i);
      KeptLogReplays(front);
      assert front[..i] == log[..i];
      KeptStep(Replay(front).value, log[|log| - 1]);
      LaterTransitive(Replay(log[..i]).value, Replay(front).value, Replay(log).value);
    } else {
      assert log[..i] == log;
      LaterReflexive(Replay(log).value);
    }
  }

  // ---------- Over runs ----------

  /** Replayed attempts are never ahead of the shown ones, and level with them off the attempts owed. */
  ghost predicate Trails(replayed: Dict<WorkerAttempt>, shown: Dict<WorkerAttempt>, owed: set<string>) {
    && shown.Valid() && replayed.keys == shown.keys && replayed.vals.Keys == shown.vals.Keys
    && forall id :: id in shown.vals ==>
         && TokenOk(shown.vals[id]) && Evolves(replayed.vals[id], shown.vals[id])
         && (id !in owed ==> replayed.vals[id] == shown.vals[id])
  }

  ghost predicate Behind(p: Process, owed: set<string>) {
    KeptLog(p.log) && Replay(p.log).Some? && Trails(Replay(p.log).value.attempts, p.attempts, owed)
  }

  lemma KeptSnoc(log: seq<Event>, e: Event)
    requires KeptLog(log) && Replay(log).Some? && EventKept(Replay(log).value, e)
    ensures KeptLog(log + [e]) && Replay(log + [e]) == Apply(Replay(log).value, e) && Replay(log + [e]).Some?
  {
    assert (log + [e])[..|log|] == log;
    KeptLogReplays(log);
    KeptStep(Replay(log).value, e);
  }

  /** The three ways a record moves the two sides: shown alone, stored without replay, stored and replayed. */
  lemma ShownTrails(replayed: Dict<WorkerAttempt>, shown: Dict<WorkerAttempt>, owed: set<string>, a: WorkerAttempt)
    requires Trails(replayed, shown, owed) && a.id in shown.vals && Evolves(shown.vals[a.id], a) && TokenOk(a)
    ensures Evolves(replayed.vals[a.id], a)
    ensures Trails(replayed, shown.Put(a.id, a), owed + {a.id})
    ensures Trails(replayed.Put(a.id, a), shown.Put(a.id, a), owed - {a.id})
  {
    PutValid(shown, a.id, a);
  }

  lemma WorkedBehind(p: Process, owed: set<string>, s: Step)
    requires Behind(p, owed) && StepOk(p, s) && s.Worked?
    ensures Behind(Next(p, s), OwedAfter(owed, s))
  {
    ChangeEvolves(s.kind, p.attempts.vals[s.a.id], s.a);
    ShownTrails(Replay(p.log).value.attempts, p.attempts, owed, s.a);
    if s.stored {
      WorkedKept(p, s);
    }
  }

  lemma WorkedKept(p: Process, s: Step)
    requires KeptLog(p.log) && Replay(p.log).Some? && StepOk(p, s) && s.Worked? && s.stored
    requires var attempts := Replay(p.log).value.attempts.vals;
             s.a.id in attempts && Evolves(attempts[s.a.id], s.a)
    ensures var was, log := Replay(p.log).value, Next(p, s).log;
            && KeptLog(log) && Replay(log).Some?
            && Replay(log).value.attempts == if Replayed(s.kind) then was.attempts.Put(s.a.id, s.a) else was.attempts
  {
    KeptSnoc(p.log, Recording(p, s));
  }

  lemma EnqueuedBehind(p: Process, owed: set<string>, s: Step)
    requires Behind(p, owed) && StepOk(p, s) && s.Enqueued?
    ensures Behind(Next(p, s), OwedAfter(owed, s))
  {
    if s.stored {
      KeptSnoc(p.log, Recording(p, s));
      EnqueuedTrails(Replay(p.log).value.attempts, p.attempts, owed, s.a);
    }
  }

  lemma EnqueuedTrails(replayed: Dict<WorkerAttempt>, shown: Dict<WorkerAttempt>, owed: set<string>, a: WorkerAttempt)
    requires Trails(replayed, shown, owed) && a.id !in shown.vals && TokenOk(a)
    ensures Trails(replayed.Put(a.id, a), shown.Put(a.id, a), owed)
  {
    PutValid(shown, a.id, a);
  }

  lemma StepKeepsBehind(p: Process, owed: set<string>, s: Step)
    requires Behind(p, owed) && StepOk(p, s)
    ensures Behind(Next(p, s), OwedAfter(owed, s))
  {
    match s
    case Worked(_, _, _, _) => WorkedBehind(p, owed, s);
    case Enqueued(_, _, _) => EnqueuedBehind(p, owed, s);
    case Elsewhere(e, stored) =>
      if stored { KeptSnoc(p.log, e); }
  }

  /**
     Whatever storage refuses and however the process goes on: its journal starts again at any point, in
     a well-formed state that is behind what the process showed, and level with it on every attempt
     whose last record was stored.
   */
  lemma {:induction false} RefusalsOverRuns(p: Process, owed: set<string>, steps: seq<Step>)
    requires Behind(p, owed) && RunOk(p, steps)
    ensures Behind(Run(p, steps), Owed(owed, steps))
    ensures p.log <= Run(p, steps).log
    decreases |steps|
  {
    if steps != [] {
      StepKeepsBehind(p, owed, steps[0]);
      RefusalsOverRuns(Next(p, steps[0]), OwedAfter(owed, steps[0]), steps[1..]);
    }
  }

  /** A process that has just started owes nothing. */
  lemma SoundOwesNothing(log: seq<Event>)
    requires SafeLog(log)
    ensures Replay(log).Some? && Behind(Process(log, Replay(log).value.attempts), {})
  {
    SafeLogReplays(log);
    SafeLogKept(log);
  }

  /**
     What is not kept: after a refused recovery at start-up the attempt is shown queued and can be
     claimed again. The journal is then still one the services would write if and only if it has the
     attempt queued too; otherwise it records the claim of an attempt that it does not have queued.
   */
  lemma ClaimAfterRefusal(p: Process, owed: set<string>, a: WorkerAttempt)
    requires Behind(p, owed) && SafeLog(p.log) && StepOk(p, Worked(WorkerClaimed, a, false, true))
    ensures SafeLog(Next(p, Worked(WorkerClaimed, a, false, true)).log)
        <==> Replay(p.log).value.attempts.vals[a.id].status.Queued?
  {
    KeptLogReplays(p.log);
    var s, e := Replay(p.log).value, Recording(p, Worked(WorkerClaimed, a, false, true));
    FrontOfSnoc(p.log, e);
    ClaimOkIff(s.attempts.vals[a.id], p.attempts.vals[a.id], a);
  }

  lemma ClaimOkIff(was: WorkerAttempt, shown: WorkerAttempt, a: WorkerAttempt)
    requires Evolves(was, shown) && SafeChange(WorkerClaimed, shown, a)
    ensures SafeChange(WorkerClaimed, was, a) <==> was.status.Queued?
  {}
}

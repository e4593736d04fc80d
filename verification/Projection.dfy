/**
 The store's projection of the journal: what each event does to it, replay as a fold, and what a
 journal of worker events must look like to have been written by the execution services.
 */
module Projection {
  import opened Prelude
  import opened Domain
  import opened StateMachine

  datatype State = State(
    sessions: map<string, Session>,
    attempts: Dict<WorkerAttempt>,
    attemptSession: map<string, string>,
    terminalAcks: set<string>,
    leases: Dict<WriterLease>,
    integrations: Dict<IntegrationAttempt>)

  const Initial := State(map[], Empty(), map[], {}, Empty(), Empty())

  function BindSession(m: map<string, string>, id: string, sessionId: Option<string>): map<string, string> {
    if Present(sessionId) then m[id := sessionId.value] else m
  }

  function SessionOf(s: State, id: string): Option<string> {
    if id in s.attemptSession then Some(s.attemptSession[id]) else None
  }

  /** Pause and cancel requests have no replay arm of their own. */
  predicate Replayed(kind: WorkerEventKind) {
    !kind.WorkerPaused? && !kind.WorkerPauseRequested? && !kind.WorkerCancelRequested?
  }

  /** A handed-off attempt is replayed without its session; an acknowledgement is also remembered. */
  function Recorded(s: State, kind: WorkerEventKind, a: WorkerAttempt, sessionId: Option<string>): State {
    s.(attempts := s.attempts.Put(a.id, a),
       attemptSession :=
         if kind.WorkerHandedOff? then s.attemptSession else BindSession(s.attemptSession, a.id, sessionId),
       terminalAcks := if kind.WorkerTerminalAck? then s.terminalAcks + {a.id} else s.terminalAcks)
  }

  /** One event of replay; None where replay raises. */
  function Apply(s: State, e: Event): Option<State> {
    match e
    case SessionCreated(session) => Some(s.(sessions := s.sessions[session.id := session]))
    case WorkerEvent(kind, a, sessionId) =>
      Some(if Replayed(kind) then Recorded(s, kind, a, sessionId) else s)
    case LeaseRecorded(_, lease) => Some(s.(leases := s.leases.Put(lease.id, lease)))
    case LeaseReleased(id) =>
      if id !in s.leases.vals then None else
        var lease := s.leases.vals[id];
        Some(s.(leases := s.leases.Put(lease.id, lease.(status := Released, version := lease.version + 1))))
    case IntegrationEvent(_, a) => Some(s.(integrations := s.integrations.Put(a.id, a)))
    case OtherEvent(_) => Some(s)
  }

  function Replay(log: seq<Event>): Option<State> {
    if log == [] then Some(Initial)
    else
      match Replay(log[..|log| - 1])
      case None => None
      case Some(s) => Apply(s, log[|log| - 1])
  }

  /** The log has grown by integration events only. */
  ghost predicate AppendsIntegration(before: seq<Event>, after: seq<Event>) {
    before <= after && forall i :: |before| <= i < |after| ==> after[i].IntegrationEvent?
  }

  lemma ReplaySnoc(log: seq<Event>, e: Event)
    requires Replay(log).Some?
    ensures Replay(log + [e]) == Apply(Replay(log).value, e)
  {
    assert (log + [e])[..|log|] == log;
  }
}

/** Lifecycle tables and the guarded transitions of tasks and worker attempts. */
module StateMachine {
  import opened Prelude
  import opened Domain

  predicate Terminal(s: AttemptStatus) {
    s.Succeeded? || s.Partial? || s.Blocked? || s.Failed? || s.Cancelled?
  }

  /** The attempt table; a status without a row has no way out. */
  predicate Allowed(from: AttemptStatus, to: AttemptStatus) {
    match from
    case Queued => to.Claimed?
    case Claimed => to.Running?
    case Running =>
      to.WaitingApproval? || to.PauseRequested? || to.CancelRequested?
      || to.Succeeded? || to.Partial? || to.Blocked? || to.Failed?
    case WaitingApproval => to.Running? || to.Cancelled? || to.Failed?
    case PauseRequested => to.Paused? || to.Failed?
    case CancelRequested => to.Cancelled? || to.Failed?
    case Paused => to.Queued? || to.Cancelled?
    case _ => false
  }

  datatype Conditions = Conditions(
    capacityAvailable: bool, claimTokenValid: bool, checkpointDurable: bool, executionStopped: bool)

  const NoConditions := Conditions(false, false, false, false)

  datatype TransitionError = VersionConflict | TerminalState | InvalidEdge | GuardFailed

  function TransitionAttempt(a: WorkerAttempt, target: AttemptStatus, expected: int, c: Conditions, now: int):
    (r: Result<WorkerAttempt, TransitionError>)
  {
    if a.version != expected then Err(VersionConflict)
    else if Terminal(a.status) then Err(TerminalState)
    else if !Allowed(a.status, target) then Err(InvalidEdge)
    else if a.status == Queued && target == Claimed && !c.capacityAvailable then Err(GuardFailed)
    else if a.status == Claimed && target == Running && !c.claimTokenValid then Err(GuardFailed)
    else if a.status == PauseRequested && target == Paused && !c.checkpointDurable then Err(GuardFailed)
    else if a.status == CancelRequested && target == Cancelled && !c.executionStopped then Err(GuardFailed)
    else Ok(a.(status := target, version := a.version + 1, updatedAt := now))
  }

  /** Edges a persisted attempt can take: the table, plus requeue and start-up reclaim. */
  predicate Edge(from: AttemptStatus, to: AttemptStatus) {
    || to == from
    || Allowed(from, to)
    || ((from.Claimed? || from.Running? || from.Paused?) && to.Queued?)
    || (from.Claimed? && to.Blocked?)
  }

  // ---------- The table from the other side ----------

  /** The statuses a status can be entered from. */
  function Sources(to: AttemptStatus): set<AttemptStatus> {
    match to
    case Queued => {Paused}
    case Claimed => {Queued}
    case Running => {Claimed, WaitingApproval}
    case WaitingApproval => {Running}
    case PauseRequested => {Running}
    case CancelRequested => {Running}
    case Paused => {PauseRequested}
    case Succeeded => {Running}
    case Partial => {Running}
    case Blocked => {Running}
    case Failed => {Running, WaitingApproval, PauseRequested, CancelRequested}
    case Cancelled => {WaitingApproval, CancelRequested, Paused}
  }

  /** The table is its own transpose, and the terminal statuses are exactly those without a way out. */
  lemma AllowedInto(from: AttemptStatus, to: AttemptStatus)
    ensures Allowed(from, to) <==> from in Sources(to)
    ensures Terminal(from) <==> forall next :: from !in Sources(next)
  {
    match from {
      case Queued => assert from in Sources(Claimed);
      case Claimed => assert from in Sources(Running);
      case Running => assert from in Sources(Failed);
      case WaitingApproval => assert from in Sources(Running);
      case PauseRequested => assert from in Sources(Paused);
      case CancelRequested => assert from in Sources(Cancelled);
      case Paused => assert from in Sources(Queued);
      case _ =>
    }
  }

  /** What must be shown beside the edge: room to claim, the token to start, a checkpoint to pause, a stop to cancel. */
  predicate Shown(to: AttemptStatus, from: AttemptStatus, c: Conditions) {
    match to
    case Claimed => c.capacityAvailable
    case Running => from.WaitingApproval? || c.claimTokenValid
    case Paused => c.checkpointDurable
    case Cancelled => !from.CancelRequested? || c.executionStopped
    case _ => true
  }

  /**
     A transition succeeds exactly at the expected version, along the table, with what the target asks
     for; it moves the status, the version and the clock, and nothing else.
   */
  lemma TransitionIff(a: WorkerAttempt, target: AttemptStatus, expected: int, c: Conditions, now: int)
    ensures var r := TransitionAttempt(a, target, expected, c, now);
            && (r.Ok? <==> a.version == expected && a.status in Sources(target) && Shown(target, a.status, c))
            && (r.Ok? ==>
                  && r.value.status == target && r.value.version == a.version + 1 && r.value.updatedAt == now
                  && r.value.(status := a.status, version := a.version, updatedAt := a.updatedAt) == a)
            && (r == Err(VersionConflict) <==> a.version != expected)
            && (r == Err(TerminalState) <==> a.version == expected && forall next :: a.status !in Sources(next))
  {
    AllowedInto(a.status, target);
  }

  /** Beside the table, only a requeue and the start-up reclaim move a recorded attempt. */
  lemma EdgeIff(from: AttemptStatus, to: AttemptStatus)
    ensures Edge(from, to) <==>
              || from == to || from in Sources(to)
              || (to.Queued? && from in {Claimed, Running, Paused}) || (to.Blocked? && from.Claimed?)
  {
    AllowedInto(from, to);
  }
}

/** The records that the journal's events carry. */
module Domain {
  import opened Prelude
  import opened Regions

  // ---------- Worker attempts ----------

  datatype AttemptStatus =
    | Queued | Claimed | Running | WaitingApproval | PauseRequested | CancelRequested | Paused
    | Succeeded | Partial | Blocked | Failed | Cancelled

  datatype WorkerAttempt = WorkerAttempt(
    id: string,
    version: int,
    workerSessionId: string,
    childTaskId: string,
    workspace: Option<string>,
    request: Option<string>,
    status: AttemptStatus,
    resumedFrom: Option<string>,
    recoveryCheckpoint: Option<string>,
    claimToken: Option<string>,
    claimExpires: Option<int>,
    checkpoint: Option<string>,
    safeToResume: bool,
    updatedAt: int)

  /** A freshly admitted attempt. */
  function NewAttempt(id: string, workerSessionId: string, childTaskId: string, workspace: Option<string>, now: int)
    : WorkerAttempt
  {
    WorkerAttempt(
      id, 1, workerSessionId, childTaskId, workspace, None, Queued, None, None, None, None, None, false, now)
  }

  // ---------- Sessions, leases, integration attempts ----------

  const MAX_WORKERS := 5

  type WorkerCap = n: int | 0 <= n <= MAX_WORKERS witness 5

  datatype Session = Session(id: string, maxActiveWorkers: WorkerCap)

  datatype LeaseStatus = Active | Released | Expired | Revoked

  datatype WriterLease = WriterLease(
    id: string, version: int, childTaskId: string, ownerAgentId: string, region: Region,
    status: LeaseStatus, acquiredAt: int, expiresAt: Option<int>)

  datatype IntegrationStatus = IntegrationQueued | IntegrationRunning | Integrated | Conflicted | Rejected

  datatype IntegrationAttempt = IntegrationAttempt(
    id: string,
    version: int,
    parentTaskId: Option<string>,
    clientRef: string,
    orderIndex: int,
    ownerId: Option<string>,
    baseRevision: Option<string>,
    status: IntegrationStatus,
    code: Option<string>,
    message: Option<string>,
    revision: Option<string>,
    createdAt: int,
    updatedAt: int)

  // ---------- Evidence ----------

  datatype Observation = ObservedPass | ObservedFail | Unobserved | NotApplicable

  datatype Evidence = Evidence(
    id: string, requirementId: string, observation: Observation, childTaskId: Option<string>,
    region: Option<Region>, recordedAt: int)

  // ---------- Events ----------

  datatype WorkerEventKind =
    | WorkerQueued | WorkerRequestBound | WorkerClaimed | WorkerHeartbeat | WorkerRecovered | WorkerRequeued
    | WorkerBlocked | WorkerStarted | WorkerStopped | WorkerCancelFailed | WorkerCheckpointed
    | WorkerTerminalAck | WorkerHandedOff
    | WorkerPaused | WorkerPauseRequested | WorkerCancelRequested

  datatype LeaseEventKind = LeaseAcquired | LeaseHeartbeat | LeaseExpired

  datatype IntegrationEventKind =
    | AttemptQueued | AttemptStarted | AttemptRequeued | AttemptCompleted | AttemptConflict | AttemptBlocked

  datatype Event =
    | SessionCreated(session: Session)
    | WorkerEvent(workerKind: WorkerEventKind, attempt: WorkerAttempt, sessionId: Option<string>)
    | LeaseRecorded(leaseKind: LeaseEventKind, lease: WriterLease)
    | LeaseReleased(leaseId: string)
    | IntegrationEvent(integrationKind: IntegrationEventKind, integration: IntegrationAttempt)
    | OtherEvent(name: string)

  /** An optional string the program treats as present: neither absent nor empty. */
  predicate Present(o: Option<string>) {
    o.Some? && o.value != ""
  }

  function OrElse(a: Option<string>, b: Option<string>): Option<string> {
    if Present(a) then a else b
  }

  /** The checkpoint an attempt resumes from: the recovery lineage before the current one. */
  function ResumePoint(a: WorkerAttempt): Option<string> {
    OrElse(a.recoveryCheckpoint, a.checkpoint)
  }
}

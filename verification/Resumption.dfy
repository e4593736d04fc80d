/** What an attempt resumes from, what each operation changes of it, and what a claim is good for. */
module Resumption {
  import opened Prelude
  import opened Domain
  import opened StateMachine
  import opened Projection
  import opened AttemptHistory
  import opened Store
  import opened Execution
  import opened Workers
  import opened Runner

  // ---------- The checkpoint that decides ----------

  /** The attempt was made to resume from a chosen checkpoint. */
  predicate Lineage(a: WorkerAttempt, point: string) {
    a.recoveryCheckpoint == Some(point) && point != ""
  }

  predicate NoLineage(a: WorkerAttempt) {
    a.recoveryCheckpoint == None || a.recoveryCheckpoint == Some("")
  }

  /** Start-up reclaims an attempt by the checkpoint it was made to resume from, whatever it saved since. */
  lemma ReclaimByLineage(a: WorkerAttempt, safe: set<string>, point: string)
    requires a.status.Claimed? || a.status.Running?
    ensures Lineage(a, point) ==> Settled(a, safe).status == if point in safe then Queued else Blocked
    ensures NoLineage(a) ==>
              Settled(a, safe).status == if a.checkpoint.Some? && a.checkpoint.value in safe then Queued else Blocked
  {}

  /** Apart from the status, reclaim takes the claim away and nothing else; attempts at rest stay as they are. */
  lemma ReclaimTakesTheClaim(a: WorkerAttempt, safe: set<string>)
    ensures a.status.Claimed? || a.status.Running? ==>
              Settled(a, safe) == a.(status := Settled(a, safe).status, claimToken := None, claimExpires := None)
    ensures !a.status.Claimed? && !a.status.Running? ==> Settled(a, safe) == a
  {}

  /** A requeue asks the same checkpoint, and without a checkpoint store the attempt's own flag. */
  lemma RequeueByLineage(a: WorkerAttempt, flags: map<string, bool>, point: string)
    ensures Lineage(a, point) ==> (SafeToRequeue(a, Some(flags)) <==> point in flags && flags[point])
    ensures NoLineage(a) && a.checkpoint == Some(point) && point != "" ==>
              (SafeToRequeue(a, Some(flags)) <==> point in flags && flags[point])
    ensures NoLineage(a) && (a.checkpoint == None || a.checkpoint == Some("")) ==> !SafeToRequeue(a, Some(flags))
    ensures SafeToRequeue(a, None) == a.safeToResume
  {}

  /** Exactly the statuses from which the recorded table leads back to the queue can be requeued. */
  lemma RequeueableIff(s: AttemptStatus)
    ensures Requeueable(s) <==> s != Queued && Edge(s, Queued)
  {}

  /** A recovery of a recovery resumes from the same checkpoint. */
  lemma LineagePasses(a: WorkerAttempt, point: string)
    ensures Lineage(a, point) ==> ResumePoint(a) == Some(point)
    ensures NoLineage(a) && a.checkpoint != Some("") ==> ResumePoint(a) == a.checkpoint
  {}

  /**
     Over any run: an attempt enqueued to resume from a checkpoint is resumed after any restart at any
     later point exactly when that checkpoint is safe, whatever the attempt has saved in between.
   */
  lemma LineageDecidesOverRuns(
    log: seq<Event>, states: seq<State>, i: nat, j: nat, id: string, point: string, safe: set<string>)
    requires Trace(log, states) && i <= j <= |log|
    requires id in states[i].attempts.vals && Lineage(states[i].attempts.vals[id], point)
    ensures id in states[j].attempts.vals
    ensures var a := states[j].attempts.vals[id];
            && Lineage(a, point)
            && (a.status.Claimed? || a.status.Running? ==>
                  Settled(a, safe).status == if point in safe then Queued else Blocked)
  {
    AttemptSafety(log, states, i, j);
    var a := states[j].attempts.vals[id];
    if a.status.Claimed? || a.status.Running? { ReclaimByLineage(a, safe, point); }
  }

  /** In particular one that was claimed, started and checkpointed as unsafe. */
  lemma UnsafeCheckpointDoesNotBlock(
    a: WorkerAttempt, token: string, expires: int, now: int, checkpointId: string, safe: set<string>, point: string)
    requires Lineage(a, point) && point in safe
    ensures var running := Moved(ClaimedFrom(a, token, expires), Running, now);
            Settled(Checkpointed(running, checkpointId, false), safe).status.Queued?
  {
    var saved := Checkpointed(Moved(ClaimedFrom(a, token, expires), Running, now), checkpointId, false);
    ReclaimByLineage(saved, safe, point);
  }

  // ---------- Claims ----------

  /** A claim is good for its token until it expires. */
  lemma ClaimHeld(a: WorkerAttempt, token: string, expires: int)
    ensures var c := ClaimedFrom(a, token, expires);
            && c.status.Claimed? && c.claimToken == Some(token) && c.claimExpires == Some(expires)
            && c.version == a.version + 1
  {}

  /** Claiming and putting back leaves the attempt as it was, two versions on. */
  lemma ClaimUndone(a: WorkerAttempt, token: string, expires: int)
    requires a.status.Queued? && a.claimToken.None? && a.claimExpires.None?
    ensures RequeuedFrom(ClaimedFrom(a, token, expires)) == a.(version := a.version + 2)
  {}

  lemma RequeuedIsFree(a: WorkerAttempt)
    ensures var r := RequeuedFrom(a);
            && r.status.Queued? && r.claimToken.None? && r.claimExpires.None? && r.version == a.version + 1
            && r.(status := a.status, claimToken := a.claimToken, claimExpires := a.claimExpires,
                  version := a.version) == a
  {}

  // ---------- What a step changes ----------

  /** A checkpoint is the attempt's newest, with its flag, under a new version; nothing else moves. */
  lemma CheckpointNoted(a: WorkerAttempt, checkpointId: string, safe: bool)
    ensures var c := Checkpointed(a, checkpointId, safe);
            && c.checkpoint == Some(checkpointId) && c.safeToResume == safe && c.version == a.version + 1
            && c.(checkpoint := a.checkpoint, safeToResume := a.safeToResume, version := a.version) == a
  {}

  /** The runner's moves and the manager's control requests are transitions of the table. */
  lemma MovesAreTransitions(a: WorkerAttempt, status: AttemptStatus, pause: bool, now: int)
    ensures Movable(a.status, status) ==>
              exists c :: TransitionAttempt(a, status, a.version, c, now) == Ok(Moved(a, status, now))
    ensures a.status.Running? ==>
              TransitionAttempt(a, if pause then PauseRequested else CancelRequested, a.version, NoConditions, now)
              == Ok(ControlRequested(a, pause, now))
  {
    if Movable(a.status, status) {
      var c := Conditions(true, true, true, true);
      TransitionIff(a, status, a.version, c, now);
      AllowedInto(a.status, status);
      assert TransitionAttempt(a, status, a.version, c, now) == Ok(Moved(a, status, now));
    }
  }

  /** An attempt can be finished from running, and on failure from a pending request or approval as well. */
  lemma FinishFrom(from: AttemptStatus, to: AttemptStatus)
    requires Terminal(to)
    ensures Movable(from, to) <==>
              || (from.Running? && !to.Cancelled?)
              || (from.WaitingApproval? && (to.Cancelled? || to.Failed?))
              || (from.PauseRequested? && to.Failed?) || (from.CancelRequested? && to.Failed?)
              || (from.Paused? && to.Cancelled?)
  {
    AllowedInto(from, to);
  }

  /** A planned child's attempt: queued, at version one, bound to its child and its worker, with no history. */
  lemma ChildAttempt(c: Child)
    ensures var a := AttemptOf(c);
            && a.id == c.attemptId && a.workerSessionId == c.workerSessionId && a.childTaskId == c.childTaskId
            && a.workspace == c.workspace && a.updatedAt == c.now && a.version == 1 && a.status.Queued?
            && a.request.None? && a.resumedFrom.None? && NoLineage(a) && a.checkpoint.None? && !a.safeToResume
            && a.claimToken.None? && a.claimExpires.None?
  {}
}

/** The two completion gates and the parent verdict that rests on them. */
module Gates {
  import opened Prelude
  import D = Domain

  type Evidence = D.Evidence

  datatype Acceptance = Acceptance(id: string, required: bool)

  // ---------- The latest observation ----------

  /** Records at `i` is what counts for a requirement: the newest, and of equally new ones the last listed. */
  ghost predicate Counts(evidence: seq<Evidence>, requirement: string, i: int) {
    && 0 <= i < |evidence| && evidence[i].requirementId == requirement
    && (forall j :: 0 <= j < |evidence| && evidence[j].requirementId == requirement ==>
         evidence[j].recordedAt <= evidence[i].recordedAt)
    && (forall j :: i < j < |evidence| && evidence[j].requirementId == requirement ==>
         evidence[j].recordedAt < evidence[i].recordedAt)
  }

  /** A map from requirements to the records that count. */
  ghost predicate IsLatest(evidence: seq<Evidence>, latest: map<string, Evidence>) {
    && (forall i :: 0 <= i < |evidence| ==> evidence[i].requirementId in latest)
    && (forall k :: k in latest ==> exists i :: Counts(evidence, k, i) && evidence[i] == latest[k])
  }

  /** The record that counts after one more record. */
  lemma CountsStep(evidence: seq<Evidence>, r: Evidence, k: string, i: int)
    requires Counts(evidence, k, i)
    ensures var newer := r.requirementId == k && r.recordedAt >= evidence[i].recordedAt;
            Counts(evidence + [r], k, if newer then |evidence| else i)
  {}

  lemma CountsFirst(evidence: seq<Evidence>, r: Evidence)
    requires forall i :: 0 <= i < |evidence| ==> evidence[i].requirementId != r.requirementId
    ensures Counts(evidence + [r], r.requirementId, |evidence|)
  {}

  lemma LatestStep(evidence: seq<Evidence>, latest: map<string, Evidence>, r: Evidence)
    requires IsLatest(evidence, latest)
    ensures var k := r.requirementId;
            var counts := k !in latest || r.recordedAt >= latest[k].recordedAt;
            IsLatest(evidence + [r], if counts then latest[k := r] else latest)
  {
    var k := r.requirementId;
    var next := if k !in latest || r.recordedAt >= latest[k].recordedAt then latest[k := r] else latest;
    forall x | x in next ensures exists i :: Counts(evidence + [r], x, i) && (evidence + [r])[i] == next[x] {
      if x in latest {
        LatestKept(evidence, latest, r, x);
      } else {
        CountsFirst(evidence, r);
      }
    }
  }

  lemma LatestKept(evidence: seq<Evidence>, latest: map<string, Evidence>, r: Evidence, x: string)
    requires IsLatest(evidence, latest) && x in latest
    ensures exists i :: Counts(evidence + [r], x, i)
              && (evidence + [r])[i] ==
                   if r.requirementId == x && r.recordedAt >= latest[x].recordedAt then r else latest[x]
  {
    var i :| Counts(evidence, x, i) && evidence[i] == latest[x];
    CountsStep(evidence, r, x, i);
  }

  lemma CountsOnce(evidence: seq<Evidence>, requirement: string, i: int, j: int)
    requires Counts(evidence, requirement, i) && Counts(evidence, requirement, j)
    ensures i == j
  {}

  predicate Good(o: D.Observation) {
    o.ObservedPass? || o.NotApplicable?
  }

  /** The counting record of a requirement is a pass or not applicable. */
  ghost predicate Met(evidence: seq<Evidence>, requirement: string) {
    exists i :: Counts(evidence, requirement, i) && Good(evidence[i].observation)
  }

  /** Evidence counts for an item unless it fails it or has not been observed. */
  lemma GoodIff(o: D.Observation)
    ensures Good(o) <==> !o.ObservedFail? && !o.Unobserved?
  {}

  /** What both gates promise: every required item is met. */
  ghost predicate Satisfied(contract: seq<Acceptance>, evidence: seq<Evidence>) {
    forall a :: 0 <= a < |contract| && contract[a].required ==>
      Met(evidence, contract[a].id)
  }

  // ---------- The evidence gate ----------

  datatype GateResult = GateResult(passed: bool, missing: seq<string>, failed: seq<string>, unobserved: seq<string>)

  datatype Finding = Fine | Missing | FailedItem | UnobservedItem

  function FindingOf(latest: map<string, Evidence>, a: Acceptance): Finding {
    if !a.required then Fine
    else if a.id !in latest then Missing
    else
      match latest[a.id].observation
      case Unobserved => UnobservedItem
      case ObservedFail => FailedItem
      case _ => Fine
  }

  function Found(latest: map<string, Evidence>, contract: seq<Acceptance>, f: Finding): seq<string> {
    if contract == [] then []
    else
      var a := contract[|contract| - 1];
      Found(latest, contract[..|contract| - 1], f) + if FindingOf(latest, a) == f then [a.id] else []
  }

  lemma {:induction false} FoundNone(latest: map<string, Evidence>, contract: seq<Acceptance>, f: Finding)
    ensures Found(latest, contract, f) == [] <==>
              forall i :: 0 <= i < |contract| ==> FindingOf(latest, contract[i]) != f
  {
    if contract != [] { FoundNone(latest, contract[..|contract| - 1], f); }
  }

  lemma FineIff(evidence: seq<Evidence>, latest: map<string, Evidence>, a: Acceptance)
    requires IsLatest(evidence, latest)
    ensures FindingOf(latest, a) == Fine <==> (a.required ==> Met(evidence, a.id))
  {
    MetIff(evidence, latest, a.id);
  }

  /** The map answers for the record that counts. */
  lemma MetIff(evidence: seq<Evidence>, latest: map<string, Evidence>, requirement: string)
    requires IsLatest(evidence, latest)
    ensures Met(evidence, requirement) <==> requirement in latest && Good(latest[requirement].observation)
  {
    if requirement in latest {
      var i :| Counts(evidence, requirement, i) && evidence[i] == latest[requirement];
      if Met(evidence, requirement) {
        var j :| Counts(evidence, requirement, j) && Good(evidence[j].observation);
        CountsOnce(evidence, requirement, i, j);
      }
    }
  }

  method Latest(evidence: seq<Evidence>) returns (latest: map<string, Evidence>)
    ensures IsLatest(evidence, latest)
  {
    latest := map[];
    for i := 0 to |evidence|
      invariant IsLatest(evidence[..i], latest)
    {
      var record := evidence[i];
      LatestStep(evidence[..i], latest, record);
      assert evidence[..i + 1] == evidence[..i] + [record];
      if record.requirementId !in latest || record.recordedAt >= latest[record.requirementId].recordedAt {
        latest := latest[record.requirementId := record];
      }
    }
    assert evidence[..|evidence|] == evidence;
  }

  lemma FoundSnoc(latest: map<string, Evidence>, contract: seq<Acceptance>, f: Finding, i: nat)
    requires i < |contract|
    ensures Found(latest, contract[..i + 1], f)
         == Found(latest, contract[..i], f) + if FindingOf(latest, contract[i]) == f then [contract[i].id] else []
  {
    TakeSnoc(contract, i);
  }

  /**
     Passes exactly when the contract is satisfied, and otherwise lists each required item under what is
     wrong with it.
   */
  method Evaluate(contract: seq<Acceptance>, evidence: seq<Evidence>)
    returns (r: GateResult, ghost latest: map<string, Evidence>)
    ensures r.passed <==> Satisfied(contract, evidence)
    ensures IsLatest(evidence, latest)
    ensures r.missing == Found(latest, contract, Missing) && r.failed == Found(latest, contract, FailedItem)
    ensures r.unobserved == Found(latest, contract, UnobservedItem)
    ensures r.passed <==> r.missing == [] && r.failed == [] && r.unobserved == []
  {
    var newest := Latest(evidence);
    var missing, failed, unobserved := [], [], [];
    for i := 0 to |contract|
      invariant missing == Found(newest, contract[..i], Missing)
      invariant failed == Found(newest, contract[..i], FailedItem)
      invariant unobserved == Found(newest, contract[..i], UnobservedItem)
    {
      var a := contract[i];
      FoundSnoc(newest, contract, Missing, i);
      FoundSnoc(newest, contract, FailedItem, i);
      FoundSnoc(newest, contract, UnobservedItem, i);
      if !a.required { continue; }
      if a.id !in newest {
        missing := missing + [a.id];
      } else if newest[a.id].observation.Unobserved? {
        unobserved := unobserved + [a.id];
      } else if newest[a.id].observation.ObservedFail? {
        failed := failed + [a.id];
      }
    }
    TakeAll(contract);
    latest := newest;
    r := GateResult(missing == [] && failed == [] && unobserved == [], missing, failed, unobserved);
    PassedIff(contract, evidence, newest);
  }

  lemma PassedIff(contract: seq<Acceptance>, evidence: seq<Evidence>, latest: map<string, Evidence>)
    requires IsLatest(evidence, latest)
    ensures Satisfied(contract, evidence) <==>
              Found(latest, contract, Missing) == [] && Found(latest, contract, FailedItem) == []
              && Found(latest, contract, UnobservedItem) == []
  {
    FoundNone(latest, contract, Missing);
    FoundNone(latest, contract, FailedItem);
    FoundNone(latest, contract, UnobservedItem);
    forall i | 0 <= i < |contract|
      ensures FindingOf(latest, contract[i]) == Fine <==> (contract[i].required ==> Met(evidence, contract[i].id))
    {
      FineIff(evidence, latest, contract[i]);
    }
  }

  // ---------- The task state machine's own check ----------

  /** The same promise, kept by the second implementation. */
  method RequiredAcceptanceIsSatisfied(contract: seq<Acceptance>, evidence: seq<Evidence>) returns (ok: bool)
    ensures ok <==> Satisfied(contract, evidence)
  {
    var latest := Latest(evidence);
    for i := 0 to |contract|
      invariant Satisfied(contract[..i], evidence)
    {
      var a := contract[i];
      FineIff(evidence, latest, a);
      if a.required && (a.id !in latest || !Good(latest[a.id].observation)) {
        assert !Satisfied(contract, evidence);
        return false;
      }
    }
    assert contract[..|contract|] == contract;
    return true;
  }

  datatype TaskStatus =
    | Draft | Planned | Queued | Running | WaitingApproval | PauseRequested | CancelRequested | Paused
    | Completed | Partial | Blocked | Failed | Cancelled

  predicate TaskTerminal(s: TaskStatus) {
    s.Completed? || s.Partial? || s.Blocked? || s.Failed? || s.Cancelled?
  }

  predicate TaskAllowed(from: TaskStatus, to: TaskStatus) {
    match from
    case Draft => to.Planned?
    case Planned => to.Queued?
    case Queued => to.Running?
    case Running =>
      to.WaitingApproval? || to.PauseRequested? || to.CancelRequested?
      || to.Completed? || to.Partial? || to.Blocked? || to.Failed?
    case WaitingApproval => to.Running? || to.Cancelled? || to.Blocked?
    case PauseRequested => to.Paused? || to.Failed?
    case CancelRequested => to.Cancelled? || to.Failed?
    case Paused => to.Queued? || to.Cancelled?
    case _ => false
  }

  /** The statuses a task can enter a status from. */
  function TaskSources(to: TaskStatus): set<TaskStatus> {
    match to
    case Draft => {}
    case Planned => {Draft}
    case Queued => {Planned, Paused}
    case Running => {Queued, WaitingApproval}
    case WaitingApproval => {Running}
    case PauseRequested => {Running}
    case CancelRequested => {Running}
    case Paused => {PauseRequested}
    case Completed => {Running}
    case Partial => {Running}
    case Blocked => {Running, WaitingApproval}
    case Failed => {Running, PauseRequested, CancelRequested}
    case Cancelled => {WaitingApproval, CancelRequested, Paused}
  }

  /** The task table is its own transpose, and the terminal statuses are exactly those without a way out. */
  lemma TaskAllowedInto(from: TaskStatus, to: TaskStatus)
    ensures TaskAllowed(from, to) <==> from in TaskSources(to)
    ensures TaskTerminal(from) <==> forall next :: from !in TaskSources(next)
  {
    match from {
      case Draft => assert from in TaskSources(Planned);
      case Planned => assert from in TaskSources(Queued);
      case Queued => assert from in TaskSources(Running);
      case Running => assert from in TaskSources(Failed);
      case WaitingApproval => assert from in TaskSources(Running);
      case PauseRequested => assert from in TaskSources(Paused);
      case CancelRequested => assert from in TaskSources(Cancelled);
      case Paused => assert from in TaskSources(Queued);
      case _ =>
    }
  }

  datatype Task = Task(status: TaskStatus, version: int, contract: seq<Acceptance>, evidence: seq<Evidence>)

  datatype Completion = Completion(childStatuses: seq<TaskStatus>, changesIntegrated: bool, verificationPassed: bool)

  datatype TransitionError = TaskVersionConflict | TaskInTerminalState | TaskInvalidEdge | CompletionUnsupported

  method ParentCompletionIsSupported(t: Task, c: Option<Completion>) returns (ok: bool)
    ensures ok <==> Supported(t, c)
  {
    if c.None? { return false; }
    var satisfied := RequiredAcceptanceIsSatisfied(t.contract, t.evidence);
    return satisfied && c.value.changesIntegrated && c.value.verificationPassed
           && forall i :: 0 <= i < |c.value.childStatuses| ==> c.value.childStatuses[i] == Completed;
  }

  ghost predicate Supported(t: Task, c: Option<Completion>) {
    && c.Some? && Satisfied(t.contract, t.evidence) && c.value.changesIntegrated && c.value.verificationPassed
    && forall i :: 0 <= i < |c.value.childStatuses| ==> c.value.childStatuses[i] == Completed
  }

  method TransitionTask(t: Task, target: TaskStatus, expected: int, c: Option<Completion>)
    returns (r: Result<Task, TransitionError>)
    ensures r.Ok? <==>
              && t.version == expected && TaskAllowed(t.status, target) && !TaskTerminal(t.status)
              && (target.Completed? ==> Supported(t, c))
    ensures r.Ok? ==> r.value == t.(status := target, version := t.version + 1)
    ensures r.Err? ==> r.error == if t.version != expected then TaskVersionConflict
                                  else if TaskTerminal(t.status) then TaskInTerminalState
                                  else if !TaskAllowed(t.status, target) then TaskInvalidEdge else CompletionUnsupported
  {
    if t.version != expected { return Err(TaskVersionConflict); }
    if TaskTerminal(t.status) { return Err(TaskInTerminalState); }
    if !TaskAllowed(t.status, target) { return Err(TaskInvalidEdge); }
    if target.Completed? {
      var supported := ParentCompletionIsSupported(t, c);
      if !supported { return Err(CompletionUnsupported); }
    }
    return Ok(t.(status := target, version := t.version + 1));
  }

  // ---------- The parent verdict ----------

  /** One integration fact; the status and code may be absent. */
  datatype Change = Change(integrated: bool, conflict: bool, status: Option<string>, code: Option<string>)

  predicate InConflict(c: Change) {
    c.conflict || c.status == Some("conflicted") || c.status == Some("conflict")
        || c.code == Some("integration_conflict")
  }

  predicate IsIntegrated(c: Change) {
    c.status == Some("integrated") || c.integrated
  }

  datatype Verdict = Verdict(status: TaskStatus, canComplete: bool, reasons: seq<string>)

  predicate Any(statuses: seq<string>, s: string) {
    exists i :: 0 <= i < |statuses| && statuses[i] == s
  }

  function VerifyParent(children: seq<string>, changes: seq<Change>, gate: GateResult): Verdict {
    if Any(children, "failed") || Any(children, "failure") || Any(children, "error")
    then Verdict(Failed, false, ["a child task failed"])
    else if Any(children, "cancelled") then Verdict(Blocked, false, ["a child task was cancelled"])
    else if Any(children, "blocked") then Verdict(Blocked, false, ["a child task is blocked"])
    else if exists i :: 0 <= i < |changes| && InConflict(changes[i])
    then Verdict(Blocked, false, ["a ChangeSet has an integration conflict"])
    else if exists i :: 0 <= i < |changes| && !IsIntegrated(changes[i])
    then Verdict(Blocked, false, ["a ChangeSet is not integrated"])
    else if !gate.passed then
      if gate.failed != [] then Verdict(Failed, false, ["required evidence failed"])
      else if gate.unobserved != [] then Verdict(Blocked, false, ["required evidence is unobserved"])
      else Verdict(Blocked, false, ["required evidence is missing"])
    else if exists i :: 0 <= i < |children| && children[i] != "completed"
    then Verdict(Partial, false, ["not all child tasks completed"])
    else Verdict(Completed, true, [])
  }

  /** The verdict is completed exactly when everything it rests on is. */
  lemma CompletedIff(children: seq<string>, changes: seq<Change>, gate: GateResult)
    ensures var v := VerifyParent(children, changes, gate);
            && (v.status.Completed? <==>
                  && (forall i :: 0 <= i < |children| ==> children[i] == "completed")
                  && (forall i :: 0 <= i < |changes| ==> IsIntegrated(changes[i]) && !InConflict(changes[i]))
                  && gate.passed)
            && (v.canComplete <==> v.status.Completed?)
            && (v.reasons == [] <==> v.status.Completed?)
  {
    if forall i :: 0 <= i < |children| ==> children[i] == "completed" {
      assert !Any(children, "failed") && !Any(children, "failure") && !Any(children, "error");
      assert !Any(children, "cancelled") && !Any(children, "blocked");
    }
  }

  /** A change is in conflict or integrated by its flag or by its status, and in conflict by its code as well. */
  lemma ChangeReads(c: Change)
    ensures InConflict(c) <==>
              || c.conflict || c.code == Some("integration_conflict")
              || (c.status.Some? && c.status.value in {"conflicted", "conflict"})
    ensures IsIntegrated(c) <==> c.integrated || c.status == Some("integrated")
  {}

  predicate SomeChild(children: seq<string>, statuses: set<string>) {
    exists i :: 0 <= i < |children| && children[i] in statuses
  }

  /**
     What a parent ends with, and why, by what stands in its way: a failed child before a stopped one, a
     child before a change set, a conflict before a missing integration, that before the gate, and in the
     gate failed evidence before evidence not yet there.
   */
  lemma VerdictExactly(children: seq<string>, changes: seq<Change>, gate: GateResult)
    ensures var v := VerifyParent(children, changes, gate);
            var broken := SomeChild(children, {"failed", "failure", "error"});
            var stopped := SomeChild(children, {"cancelled", "blocked"});
            var clear := forall i :: 0 <= i < |changes| ==> IsIntegrated(changes[i]) && !InConflict(changes[i]);
            && (v.status.Failed? <==> broken || (!stopped && clear && !gate.passed && gate.failed != []))
            && (v.status.Blocked? <==>
                  !broken && (stopped || !clear || (!gate.passed && gate.failed == [])))
            && (v.status.Partial? <==>
                  !broken && !stopped && clear && gate.passed && SomeChildNot(children, "completed"))
            && (v.status.Failed? || v.status.Blocked? || v.status.Partial? || v.status.Completed?)
            && (broken ==> v.reasons == ["a child task failed"])
            && (!broken && SomeChild(children, {"cancelled"}) ==> v.reasons == ["a child task was cancelled"])
            && (!broken && stopped && !SomeChild(children, {"cancelled"}) ==> v.reasons == ["a child task is blocked"])
            && (!broken && !stopped && !clear ==>
                  v.reasons == [if exists i :: 0 <= i < |changes| && InConflict(changes[i])
                                then "a ChangeSet has an integration conflict" else "a ChangeSet is not integrated"])
            && (!broken && !stopped && clear && !gate.passed ==>
                  v.reasons == [if gate.failed != [] then "required evidence failed"
                                else if gate.unobserved != [] then "required evidence is unobserved"
                                else "required evidence is missing"])
            && (v.status.Partial? ==> v.reasons == ["not all child tasks completed"])
  {
    AnyOf(children, "failed", {"failed", "failure", "error"});
    AnyOf(children, "failure", {"failed", "failure", "error"});
    AnyOf(children, "error", {"failed", "failure", "error"});
    AnyOf(children, "cancelled", {"cancelled", "blocked"});
    AnyOf(children, "blocked", {"cancelled", "blocked"});
    AnyOf(children, "cancelled", {"cancelled"});
  }

  lemma AnyOf(children: seq<string>, s: string, statuses: set<string>)
    ensures Any(children, s) && s in statuses ==> SomeChild(children, statuses)
    ensures SomeChild(children, statuses) ==> exists t :: t in statuses && Any(children, t)
  {
    if SomeChild(children, statuses) {
      var i :| 0 <= i < |children| && children[i] in statuses;
      assert Any(children, children[i]);
    }
  }

  predicate SomeChildNot(children: seq<string>, s: string) {
    exists i :: 0 <= i < |children| && children[i] != s
  }

  function AllCompleted(n: nat): (r: seq<TaskStatus>)
    ensures |r| == n && forall i :: 0 <= i < n ==> r[i] == Completed
  {
    if n == 0 then [] else AllCompleted(n - 1) + [Completed]
  }

  /** Every verdict is a status a running task may move to, and of those only two suit another task. */
  lemma VerdictAllowed(children: seq<string>, changes: seq<Change>, gate: GateResult, from: TaskStatus)
    ensures var s := VerifyParent(children, changes, gate).status;
            && TaskAllowed(Running, s)
            && (TaskAllowed(from, s) ==> from.Running? || s.Failed? || s.Blocked?)
  {}

  /**
     The verdict on a running task is always an allowed transition: the gate that decided completed
     and the state machine's own check cannot disagree.
   */
  method VerifyTask(t: Task, children: seq<string>, changes: seq<Change>)
    returns (v: Verdict, r: Result<Task, TransitionError>)
    ensures t.status.Running? ==> r == Ok(t.(status := v.status, version := t.version + 1))
    ensures r.Ok? ==> t.status.Running? || v.status.Failed? || v.status.Blocked?
    ensures v.status.Completed? <==>
              && (forall i :: 0 <= i < |children| ==> children[i] == "completed")
              && (forall i :: 0 <= i < |changes| ==> IsIntegrated(changes[i]) && !InConflict(changes[i]))
              && Satisfied(t.contract, t.evidence)
  {
    var gate, _ := Evaluate(t.contract, t.evidence);
    v := VerifyParent(children, changes, gate);
    CompletedIff(children, changes, gate);
    VerdictAllowed(children, changes, gate, t.status);
    var support := Completion(AllCompleted(|children|), v.canComplete, v.canComplete);
    r := TransitionTask(t, v.status, t.version, if v.status.Completed? then Some(support) else None);
  }

  /** Reordering evidence can change a verdict only between records of one requirement at one instant. */
  lemma TiesDecideByPosition(a: Evidence, b: Evidence)
    requires a.requirementId == b.requirementId && a.recordedAt == b.recordedAt
    ensures Satisfied([Acceptance(a.requirementId, true)], [a, b]) <==> Good(b.observation)
  {
    var contract, evidence := [Acceptance(a.requirementId, true)], [a, b];
    assert Counts(evidence, a.requirementId, 1);
    assert contract[0].id == a.requirementId && evidence[1] == b;
    if Met(evidence, a.requirementId) {
      var i :| Counts(evidence, a.requirementId, i) && Good(evidence[i].observation);
      CountsOnce(evidence, a.requirementId, i, 1);
    }
    assert Satisfied(contract, evidence) <==> Met(evidence, contract[0].id);
  }
}

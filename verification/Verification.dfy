/** Owner self-reviews and their verification against recorded evidence. */
module Verification {
  import opened Prelude
  import opened Regions
  import opened Domain
  import opened Paths
  import opened Ownership

  datatype ReviewStatus = ReviewSubmitted | ReviewAccepted | ReviewRejected

  datatype Review = Review(
    id: string, version: int, childTaskId: string, ownerAgentId: string, regions: seq<Region>,
    evidenceIds: seq<string>, status: ReviewStatus, rejectionReason: Option<string>, updatedAt: int)

  datatype VerificationStatus = Passed | BlockedByReasons

  datatype Reason =
    | ReviewNotSubmitted | EvidenceMissing | ReferenceMissing | NotObservedPass | RegionMissing | RegionOutOfScope

  datatype VerificationRecord = VerificationRecord(
    id: string, childTaskId: string, reviewId: string, verifierAgentId: string, evidenceIds: seq<string>,
    status: VerificationStatus, reasons: seq<Reason>, checkedRegions: seq<Region>)

  /** The part of a parent task the verifier reads. */
  datatype TaskEvidence = TaskEvidence(childTaskIds: seq<string>, evidence: seq<Evidence>)

  datatype ReviewEvent = ReviewWritten(review: Review) | VerificationWritten(record: VerificationRecord)

  datatype ReviewError =
    | NotFound | VersionConflict | OwnerMissing | WrongOwner | NotAllowed(cause: OwnershipError) | NoRegion | NoEvidence
    | ReviewConflict | WrongTransition | NoReason | CommitRefused

  // ---------- Evidence lookup ----------

  function Dedupe(ids: seq<string>): (r: seq<string>)
    ensures forall x :: x in r <==> x in ids
    ensures r == [] <==> ids == []
    ensures forall i, j :: 0 <= i < j < |r| ==> r[i] != r[j]
  {
    if ids == [] then []
    else
      var front := Dedupe(ids[..|ids| - 1]);
      if ids[|ids| - 1] in front then front else front + [ids[|ids| - 1]]
  }

  /** A later record with the same id replaces an earlier one. */
  function LastById(evidence: seq<Evidence>, id: string): Option<Evidence> {
    if evidence == [] then None
    else if evidence[|evidence| - 1].id == id then Some(evidence[|evidence| - 1])
    else LastById(evidence[..|evidence| - 1], id)
  }

  /** The evidence of the first task that lists the child. */
  function EvidenceFor(child: string, tasks: seq<TaskEvidence>): seq<Evidence> {
    if tasks == [] then []
    else if child in tasks[0].childTaskIds then tasks[0].evidence
    else EvidenceFor(child, tasks[1..])
  }

  predicate CitedBy(child: string, evidence: seq<Evidence>, id: string) {
    LastById(evidence, id).Some? && LastById(evidence, id).value.childTaskId == Some(child)
  }

  /** The records the ids cite: the child's own, in citation order. */
  function Cited(child: string, evidence: seq<Evidence>, ids: seq<string>): (r: seq<Evidence>)
    ensures |r| <= |ids|
  {
    if ids == [] then []
    else
      (if CitedBy(child, evidence, ids[0]) then [LastById(evidence, ids[0]).value] else [])
      + Cited(child, evidence, ids[1..])
  }

  /** As many records as ids means every id cites its record. */
  lemma {:induction false} AllCited(child: string, evidence: seq<Evidence>, ids: seq<string>)
    requires |Cited(child, evidence, ids)| == |ids|
    ensures forall k :: 0 <= k < |ids| ==>
              CitedBy(child, evidence, ids[k]) && Cited(child, evidence, ids)[k] == LastById(evidence, ids[k]).value
  {
    if ids != [] {
      assert CitedBy(child, evidence, ids[0]);
      AllCited(child, evidence, ids[1..]);
    }
  }

  /** The evidence is that of the first task listing the child, and none when no task does. */
  lemma {:induction false} EvidenceForFirst(child: string, tasks: seq<TaskEvidence>, i: nat)
    requires i <= |tasks| && (i < |tasks| ==> child in tasks[i].childTaskIds)
    requires forall j :: 0 <= j < i ==> child !in tasks[j].childTaskIds
    ensures EvidenceFor(child, tasks) == if i < |tasks| then tasks[i].evidence else []
  {
    if i > 0 {
      assert forall j :: 0 <= j < i - 1 ==> tasks[1..][j] == tasks[j + 1];
      EvidenceForFirst(child, tasks[1..], i - 1);
    }
  }

  /** Of the records under an id, the one listed last answers for it. */
  lemma {:induction false} LastByIdIs(evidence: seq<Evidence>, id: string, i: int)
    requires -1 <= i < |evidence| && (i >= 0 ==> evidence[i].id == id)
    requires forall j :: i < j < |evidence| ==> evidence[j].id != id
    ensures LastById(evidence, id) == if i >= 0 then Some(evidence[i]) else None
  {
    if i < |evidence| - 1 { LastByIdIs(evidence[..|evidence| - 1], id, i); }
  }

  /** Repeated ids are dropped behind their first occurrence, and nothing is reordered. */
  lemma {:induction false} DedupeKeepsOrder(ids: seq<string>, i: nat)
    requires i <= |ids|
    ensures Dedupe(ids[..i]) <= Dedupe(ids)
    ensures i < |ids| && ids[i] !in ids[..i] ==> Dedupe(ids[..i + 1]) == Dedupe(ids[..i]) + [ids[i]]
    decreases |ids|
  {
    if i < |ids| {
      assert ids[..|ids| - 1][..i] == ids[..i];
      assert ids[..i + 1][..i] == ids[..i];
      DedupeKeepsOrder(ids[..|ids| - 1], i);
    } else {
      assert ids[..i] == ids;
    }
  }

  /** When every id cites a record, the records cited are those, one for each id and in its place. */
  lemma {:induction false} CitedInPlace(child: string, evidence: seq<Evidence>, ids: seq<string>)
    requires forall k :: 0 <= k < |ids| ==> CitedBy(child, evidence, ids[k])
    ensures |Cited(child, evidence, ids)| == |ids|
    ensures forall k :: 0 <= k < |ids| ==> Some(Cited(child, evidence, ids)[k]) == LastById(evidence, ids[k])
  {
    if ids != [] {
      assert CitedBy(child, evidence, ids[0]);
      assert forall k :: 0 <= k < |ids[1..]| ==> ids[1..][k] == ids[k + 1];
      CitedInPlace(child, evidence, ids[1..]);
    }
  }

  /** An id cites the child's own last record under it. */
  lemma CitedByIff(child: string, evidence: seq<Evidence>, id: string)
    ensures CitedBy(child, evidence, id) <==>
              exists i :: 0 <= i < |evidence| && evidence[i].id == id && evidence[i].childTaskId == Some(child)
                          && forall j :: i < j < |evidence| ==> evidence[j].id != id
  {
    LastPosition(evidence, id);
    forall i | 0 <= i < |evidence| && evidence[i].id == id && forall j :: i < j < |evidence| ==> evidence[j].id != id
      ensures LastById(evidence, id) == Some(evidence[i])
    {
      LastByIdIs(evidence, id, i);
    }
  }

  lemma {:induction false} LastPosition(evidence: seq<Evidence>, id: string)
    ensures LastById(evidence, id).Some? ==>
              exists i :: 0 <= i < |evidence| && LastById(evidence, id).value == evidence[i] && evidence[i].id == id
                          && forall j :: i < j < |evidence| ==> evidence[j].id != id
  {
    if evidence != [] && evidence[|evidence| - 1].id != id {
      LastPosition(evidence[..|evidence| - 1], id);
    }
  }

  // ---------- Reviews ----------

  predicate Open(r: Review) {
    r.status.ReviewSubmitted? || r.status.ReviewAccepted?
  }

  predicate Later(a: Review, b: Review) {
    a.updatedAt > b.updatedAt || (a.updatedAt == b.updatedAt && Before(b.id, a.id))
  }

  /**
     The newer review is later, and of two written at one instant the one whose id comes behind. A review
     that is not rejected is open.
   */
  lemma LaterIff(a: Review, b: Review)
    ensures a.updatedAt != b.updatedAt ==> (Later(a, b) <==> a.updatedAt > b.updatedAt)
    ensures a.updatedAt == b.updatedAt ==> (Later(a, b) <==> Before(b.id, a.id))
    ensures Open(a) <==> !a.status.ReviewRejected?
  {}

  lemma LaterOrder(a: Review, b: Review, c: Review)
    ensures a.id != b.id ==> (Later(a, b) <==> !Later(b, a))
    ensures Later(a, b) && Later(b, c) ==> Later(a, c)
  {
    BeforeTotal(a.id, b.id);
    if Before(b.id, a.id) && Before(c.id, b.id) { BeforeTransitive(c.id, b.id, a.id); }
  }

  function ReplayReviews(log: seq<ReviewEvent>): Dict<Review> {
    if log == [] then Empty()
    else
      var e, d := log[|log| - 1], ReplayReviews(log[..|log| - 1]);
      if e.ReviewWritten? then d.Put(e.review.id, e.review) else d
  }

  ghost predicate ReviewsOk(d: Dict<Review>) {
    d.Valid() && forall id :: id in d.vals ==> d.vals[id].id == id
  }

  lemma {:induction false} ReplayedReviewsOk(log: seq<ReviewEvent>)
    ensures ReviewsOk(ReplayReviews(log))
  {
    if log != [] {
      ReplayedReviewsOk(log[..|log| - 1]);
      var e := log[|log| - 1];
      if e.ReviewWritten? { PutValid(ReplayReviews(log[..|log| - 1]), e.review.id, e.review); }
    }
  }

  /** A child's open review, if it has one, is the latest of its reviews. */
  ghost predicate OneOpen(d: Dict<Review>, child: string) {
    forall i, j ::
      && i in d.vals && j in d.vals && i != j
      && d.vals[i].childTaskId == child == d.vals[j].childTaskId && Open(d.vals[i]) ==>
        Later(d.vals[i], d.vals[j])
  }

  /** A child never has two open reviews. */
  lemma AtMostOneOpen(d: Dict<Review>, child: string, i: string, j: string)
    requires ReviewsOk(d) && OneOpen(d, child)
    requires i in d.vals && j in d.vals && d.vals[i].childTaskId == child && d.vals[j].childTaskId == child
    requires Open(d.vals[i]) && Open(d.vals[j])
    ensures i == j
  {
    if i != j { LaterOrder(d.vals[i], d.vals[j], d.vals[i]); }
  }

  function Transitioned(r: Review, status: ReviewStatus, reason: Option<string>, now: int): Review {
    r.(status := status, version := r.version + 1, rejectionReason := reason, updatedAt := now)
  }

  /** A decision moves the status, the reason, the version and the clock, and nothing else. */
  lemma DecidedExactly(r: Review, status: ReviewStatus, reason: Option<string>, now: int)
    ensures var t := Transitioned(r, status, reason, now);
            && t.status == status && t.rejectionReason == reason && t.version == r.version + 1 && t.updatedAt == now
            && t.(status := r.status, rejectionReason := r.rejectionReason, version := r.version,
                  updatedAt := r.updatedAt) == r
  {}

  class OwnerReviewService {
    const ownership: PersistentOwnership
    /** The store's own dictionary of assignments, kept beside the ownership service's. */
    var assignments: map<string, Assignment>
    var log: seq<ReviewEvent>
    var reviews: Dict<Review>

    ghost predicate Synced()
      reads this
    {
      ReplayReviews(log) == reviews
    }

    constructor (ownership: PersistentOwnership, assignments: map<string, Assignment>)
      ensures this.ownership == ownership && this.assignments == assignments
      ensures log == [] && reviews == Empty() && Synced()
    {
      this.ownership, this.assignments := ownership, assignments;
      log, reviews := [], Empty();
    }

    /** Whether the owner may write every region; stops at the first it may not. */
    method CheckRegions(child: string, owner: string, regions: seq<Region>) returns (r: Result<(), OwnershipError>)
      requires regions != []
      ensures r.Ok? <==> child in ownership.boundaries && HasActiveOwner(ownership.Live(), child)
                         && ownership.assignments[child].ownerAgentId == owner
                         && AllInside(regions, ownership.assignments[child].writeRegions)
      ensures r.Err? ==>
                r.error == if child !in ownership.boundaries then BoundaryNotFound
                           else if !HasActiveOwner(ownership.Live(), child) then OwnerNotAssigned
                           else if ownership.assignments[child].ownerAgentId != owner then OwnerMismatch
                           else ScopeViolation
    {
      for i := 0 to |regions|
        invariant i > 0 ==> child in ownership.boundaries && HasActiveOwner(ownership.Live(), child)
                            && ownership.assignments[child].ownerAgentId == owner
        invariant i > 0 ==> AllInside(regions[..i], ownership.assignments[child].writeRegions)
      {
        r := ownership.AssertWriteAllowed(child, owner, regions[i]);
        if r.Err? { return; }
      }
      assert regions[..|regions|] == regions;
      return Ok(());
    }

    method Latest(child: string) returns (best: Option<Review>)
      requires ReviewsOk(reviews)
      ensures best.None? <==> forall id :: id in reviews.vals ==> reviews.vals[id].childTaskId != child
      ensures best.Some? ==>
                && best.value.id in reviews.vals && reviews.vals[best.value.id] == best.value
                     && best.value.childTaskId == child
                && forall id :: id in reviews.vals && reviews.vals[id].childTaskId == child && id != best.value.id ==>
                     Later(best.value, reviews.vals[id])
    {
      best := None;
      var keys, vals := reviews.keys, reviews.vals;
      for i := 0 to |keys|
        invariant best.None? ==> forall j :: 0 <= j < i ==> vals[keys[j]].childTaskId != child
        invariant best.Some? ==>
                    && best.value.id in vals && vals[best.value.id] == best.value && best.value.childTaskId == child
                    && forall j :: 0 <= j < i && vals[keys[j]].childTaskId == child && keys[j] != best.value.id ==>
                         Later(best.value, vals[keys[j]])
      {
        var a := vals[keys[i]];
        if a.childTaskId == child {
          if best.None? {
            best := Some(a);
          } else {
            var b := best.value;
            LaterOrder(a, b, a);
            if Later(a, b) {
              forall j | 0 <= j < i && vals[keys[j]].childTaskId == child && keys[j] != b.id
                ensures Later(a, vals[keys[j]])
              {
                LaterOrder(a, b, vals[keys[j]]);
              }
              best := Some(a);
            }
          }
        }
      }
      forall id | id in vals ensures exists j :: 0 <= j < |keys| && keys[j] == id {}
    }

    method Submit(id: string, child: string, owner: string, regions: seq<Region>, evidenceIds: seq<string>,
                  expectedAssignmentVersion: int, now: int, stored: bool) returns (r: Result<Review, ReviewError>)
      requires Synced() && id !in reviews.vals
      modifies this`log, this`reviews
      ensures Synced() <==> r != Err(CommitRefused)
      ensures var review := Review(id, 1, child, owner, regions, Dedupe(evidenceIds), ReviewSubmitted, None, now);
              && (r.Ok? || r == Err(CommitRefused) ==> reviews == old(reviews).Put(id, review))
              && (r.Ok? ==> r.value == review && log == old(log) + [ReviewWritten(review)])
      ensures r.Err? && r != Err(CommitRefused) ==> reviews == old(reviews) && log == old(log)
      ensures r.Ok? || r == Err(CommitRefused) <==>
                && child in assignments && assignments[child].status.ActiveOwner?
                && assignments[child].version == expectedAssignmentVersion && assignments[child].ownerAgentId == owner
                && regions != [] && child in ownership.boundaries && HasActiveOwner(ownership.Live(), child)
                && ownership.assignments[child].ownerAgentId == owner
                && AllInside(regions, ownership.assignments[child].writeRegions)
                && evidenceIds != [] && NoLatestOpen(old(reviews), child)
      ensures r.Err? && r != Err(CommitRefused) ==>
                if child !in assignments || !assignments[child].status.ActiveOwner? then r == Err(OwnerMissing)
                else if assignments[child].version != expectedAssignmentVersion then r == Err(VersionConflict)
                else if assignments[child].ownerAgentId != owner then r == Err(WrongOwner)
                else if regions == [] then r == Err(NoRegion)
                else r.error.NotAllowed? || r.error == if evidenceIds == [] then NoEvidence else ReviewConflict
      ensures r.Ok? || r == Err(CommitRefused) ==>
                && HasActiveOwner(ownership.Live(), child) && ownership.assignments[child].ownerAgentId == owner
                && regions != [] && AllInside(regions, ownership.assignments[child].writeRegions)
                && StepOk(old(reviews),
                     Submitted(Review(id, 1, child, owner, regions, Dedupe(evidenceIds), ReviewSubmitted, None, now)))
                && child in assignments && assignments[child].status.ActiveOwner?
                && assignments[child].ownerAgentId == owner && assignments[child].version == expectedAssignmentVersion
    {
      ReplayedReviewsOk(log);
      if child !in assignments || !assignments[child].status.ActiveOwner? { return Err(OwnerMissing); }
      var assignment := assignments[child];
      if assignment.version != expectedAssignmentVersion { return Err(VersionConflict); }
      if assignment.ownerAgentId != owner { return Err(WrongOwner); }
      if regions == [] { return Err(NoRegion); }
      var allowed := CheckRegions(child, owner, regions);
      if allowed.Err? { return Err(NotAllowed(allowed.error)); }
      var ids := Dedupe(evidenceIds);
      if ids == [] { return Err(NoEvidence); }
      var current := Latest(child);
      if current.Some? && Open(current.value) {
        LatestOpen(reviews, child, current.value);
        return Err(ReviewConflict);
      }
      var review := Review(id, 1, child, owner, regions, ids, ReviewSubmitted, None, now);
      LatestNotOpen(reviews, child, current);
      Write(review, stored);
      return if stored then Ok(review) else Err(CommitRefused);
    }

    /** Shown first, then committed; a refused commit leaves the dictionary ahead. */
    method Write(review: Review, stored: bool)
      requires Synced() && (review.id in reviews.vals ==> reviews.vals[review.id] != review)
      modifies this`log, this`reviews
      ensures reviews == old(reviews).Put(review.id, review) && (Synced() <==> stored)
      ensures log == if stored then old(log) + [ReviewWritten(review)] else old(log)
    {
      reviews := reviews.Put(review.id, review);
      if stored {
        log := log + [ReviewWritten(review)];
        assert log[..|log| - 1] == old(log);
      }
    }

    /** Journals a verification; reviews stay as they are. */
    method Note(record: VerificationRecord)
      requires Synced()
      modifies this`log
      ensures Synced() && log == old(log) + [VerificationWritten(record)]
    {
      log := log + [VerificationWritten(record)];
      assert log[..|log| - 1] == old(log);
    }

    method Transition(review: Review, status: ReviewStatus, reason: Option<string>, now: int, stored: bool)
      returns (r: Result<Review, ReviewError>)
      requires Synced() && review.id in reviews.vals && reviews.vals[review.id] == review
      modifies this`log, this`reviews
      ensures r == if !review.status.ReviewSubmitted? || status.ReviewSubmitted? then Err(WrongTransition)
                   else if status.ReviewRejected? && !Present(reason) then Err(NoReason)
                   else if stored then Ok(Transitioned(review, status, reason, now)) else Err(CommitRefused)
      ensures Synced() <==> r != Err(CommitRefused)
      ensures reviews == if r.Ok? || r == Err(CommitRefused)
                         then old(reviews).Put(review.id, Transitioned(review, status, reason, now)) else old(reviews)
      ensures log == if r.Ok? then old(log) + [ReviewWritten(r.value)] else old(log)
      ensures r.Ok? || r == Err(CommitRefused) ==> StepOk(old(reviews), Decided(review.id, status, reason, now))
    {
      if !review.status.ReviewSubmitted? { return Err(WrongTransition); }
      if status.ReviewSubmitted? { return Err(WrongTransition); }
      if status.ReviewRejected? && !Present(reason) { return Err(NoReason); }
      Write(Transitioned(review, status, reason, now), stored);
      return if stored then Ok(Transitioned(review, status, reason, now)) else Err(CommitRefused);
    }
  }

  lemma LatestOpen(d: Dict<Review>, child: string, latest: Review)
    requires ReviewsOk(d) && latest.id in d.vals && d.vals[latest.id] == latest && latest.childTaskId == child
    requires Open(latest)
    requires forall id :: id in d.vals && d.vals[id].childTaskId == child && id != latest.id ==>
               Later(latest, d.vals[id])
    ensures !NoLatestOpen(d, child)
  {
    forall other | other in d.vals && d.vals[other].childTaskId == child ensures !Later(d.vals[other], latest) {
      if other != latest.id {
        LaterOrder(latest, d.vals[other], latest);
      } else {
        BeforeTotal(latest.id, latest.id);
      }
    }
  }

  lemma LatestNotOpen(d: Dict<Review>, child: string, latest: Option<Review>)
    requires ReviewsOk(d)
    requires latest.None? ==> forall id :: id in d.vals ==> d.vals[id].childTaskId != child
    requires latest.Some? ==>
               && latest.value.id in d.vals && d.vals[latest.value.id] == latest.value
                    && latest.value.childTaskId == child
               && !Open(latest.value)
               && forall id :: id in d.vals && d.vals[id].childTaskId == child && id != latest.value.id ==>
                    Later(latest.value, d.vals[id])
    ensures NoLatestOpen(d, child)
  {
    forall id | id in d.vals && d.vals[id].childTaskId == child && Open(d.vals[id])
      ensures exists other :: other in d.vals && d.vals[other].childTaskId == child && Later(d.vals[other], d.vals[id])
    {
      assert Later(d.vals[latest.value.id], d.vals[id]);
    }
  }

  // ---------- Reviews over whole runs ----------

  /** An accepted submission, or an accepted transition of a review. */
  datatype ReviewStep =
    | Submitted(review: Review)
    | Decided(id: string, status: ReviewStatus, reason: Option<string>, now: int)

  /** No open review is the latest of its child's. */
  ghost predicate NoLatestOpen(d: Dict<Review>, child: string) {
    forall id :: id in d.vals && d.vals[id].childTaskId == child && Open(d.vals[id]) ==>
      exists other :: other in d.vals && d.vals[other].childTaskId == child && Later(d.vals[other], d.vals[id])
  }

  /** What `submit` and `transition` let through. */
  ghost predicate StepOk(d: Dict<Review>, s: ReviewStep) {
    match s
    case Submitted(r) => r.id !in d.vals && r.status.ReviewSubmitted? && NoLatestOpen(d, r.childTaskId)
    case Decided(id, status, reason, _) =>
      && id in d.vals && d.vals[id].status.ReviewSubmitted? && !status.ReviewSubmitted?
      && (status.ReviewRejected? ==> Present(reason))
  }

  function Written(d: Dict<Review>, s: ReviewStep): Option<Review> {
    match s
    case Submitted(r) => Some(r)
    case Decided(id, status, reason, now) =>
      if id in d.vals then Some(Transitioned(d.vals[id], status, reason, now)) else None
  }

  function AfterStep(d: Dict<Review>, s: ReviewStep): Dict<Review> {
    if Written(d, s).Some? then d.Put(Written(d, s).value.id, Written(d, s).value) else d
  }

  /** The review a step writes comes after every other of its child. */
  ghost predicate ComesLast(d: Dict<Review>, s: ReviewStep) {
    Written(d, s).Some? ==>
      var r := Written(d, s).value;
      forall id :: id in d.vals && id != r.id && d.vals[id].childTaskId == r.childTaskId ==> Later(r, d.vals[id])
  }

  ghost predicate RunOk(d: Dict<Review>, steps: seq<ReviewStep>)
    decreases |steps|
  {
    steps == [] || (StepOk(d, steps[0]) && ComesLast(d, steps[0]) && RunOk(AfterStep(d, steps[0]), steps[1..]))
  }

  function AfterSteps(d: Dict<Review>, steps: seq<ReviewStep>): Dict<Review>
    decreases |steps|
  {
    if steps == [] then d else AfterSteps(AfterStep(d, steps[0]), steps[1..])
  }

  ghost predicate OneOpenEach(d: Dict<Review>) {
    ReviewsOk(d) && forall child :: OneOpen(d, child)
  }

  /** A submission leaves the child's open review its latest if and only if it comes last itself. */
  lemma SubmissionKeepsOneOpenIff(d: Dict<Review>, r: Review)
    requires ReviewsOk(d) && OneOpen(d, r.childTaskId) && StepOk(d, Submitted(r))
    ensures OneOpen(AfterStep(d, Submitted(r)), r.childTaskId) <==> ComesLast(d, Submitted(r))
  {
    var e := AfterStep(d, Submitted(r));
    NoneOpen(d, r.childTaskId);
    assert e.vals[r.id] == r;
    if OneOpen(e, r.childTaskId) {
      forall id | id in d.vals && d.vals[id].childTaskId == r.childTaskId ensures Later(r, d.vals[id]) {
        assert e.vals[id] == d.vals[id];
      }
    }
  }

  lemma NoneOpen(d: Dict<Review>, child: string)
    requires ReviewsOk(d) && OneOpen(d, child) && NoLatestOpen(d, child)
    ensures forall id :: id in d.vals && d.vals[id].childTaskId == child ==> !Open(d.vals[id])
  {
    forall id | id in d.vals && d.vals[id].childTaskId == child ensures !Open(d.vals[id]) {
      if Open(d.vals[id]) {
        var other :| other in d.vals && d.vals[other].childTaskId == child && Later(d.vals[other], d.vals[id]);
        LaterOrder(d.vals[other], d.vals[id], d.vals[other]);
        BeforeTotal(id, id);
      }
    }
  }

  lemma DecisionKeepsOneOpen(d: Dict<Review>, s: ReviewStep)
    requires s.Decided? && ReviewsOk(d) && StepOk(d, s) && ComesLast(d, s)
    requires OneOpen(d, d.vals[s.id].childTaskId)
    ensures OneOpen(AfterStep(d, s), d.vals[s.id].childTaskId)
  {
    var was := d.vals[s.id];
    forall id | id in d.vals && id != s.id && d.vals[id].childTaskId == was.childTaskId ensures !Open(d.vals[id]) {
      if Open(d.vals[id]) { AtMostOneOpen(d, was.childTaskId, id, s.id); }
    }
  }

  lemma OtherChildren(d: Dict<Review>, r: Review, child: string)
    requires OneOpen(d, child) && r.childTaskId != child
    requires r.id in d.vals ==> d.vals[r.id].childTaskId == r.childTaskId
    ensures OneOpen(d.Put(r.id, r), child)
  {}

  lemma StepKeepsOneOpen(d: Dict<Review>, s: ReviewStep)
    requires OneOpenEach(d) && StepOk(d, s) && ComesLast(d, s)
    ensures OneOpenEach(AfterStep(d, s))
  {
    var r := Written(d, s).value;
    PutValid(d, r.id, r);
    forall child ensures OneOpen(AfterStep(d, s), child) {
      assert OneOpen(d, child);
      if child != r.childTaskId {
        OtherChildren(d, r, child);
      } else if s.Submitted? {
        SubmissionKeepsOneOpenIff(d, r);
      } else {
        DecisionKeepsOneOpen(d, s);
      }
    }
  }

  predicate OpenTogether(d: Dict<Review>, i: string, j: string) {
    i in d.vals && j in d.vals && d.vals[i].childTaskId == d.vals[j].childTaskId && Open(d.vals[i]) && Open(d.vals[j])
  }

  ghost predicate NoTwoOpen(d: Dict<Review>) {
    forall i, j :: OpenTogether(d, i, j) ==> i == j
  }

  lemma {:induction false} RunKeepsOneOpen(d: Dict<Review>, steps: seq<ReviewStep>)
    requires OneOpenEach(d) && RunOk(d, steps)
    ensures OneOpenEach(AfterSteps(d, steps))
    decreases |steps|
  {
    if steps != [] {
      StepKeepsOneOpen(d, steps[0]);
      RunKeepsOneOpen(AfterStep(d, steps[0]), steps[1..]);
    }
  }

  /**
     Over any sequence of submissions and transitions in which each review comes last among its
     child's when it is written, no child ever has two open reviews.
   */
  lemma {:induction false} NeverTwoOpen(d: Dict<Review>, steps: seq<ReviewStep>)
    requires OneOpenEach(d) && RunOk(d, steps)
    ensures NoTwoOpen(AfterSteps(d, steps))
  {
    RunKeepsOneOpen(d, steps);
    var e := AfterSteps(d, steps);
    forall i, j | OpenTogether(e, i, j) ensures i == j {
      AtMostOneOpen(e, e.vals[i].childTaskId, i, j);
    }
  }

  /** From an empty store on. */
  lemma NeverTwoOpenFromTheStart(steps: seq<ReviewStep>)
    requires RunOk(Empty(), steps)
    ensures NoTwoOpen(AfterSteps(Empty(), steps))
  {
    var none := Empty<Review>();
    assert OneOpenEach(none);
    NeverTwoOpen(none, steps);
  }

  /**
     Two reviews written at one instant: when the rejected one has the larger id it hides the open
     one, and a second review is let through.
   */
  lemma OneInstantTwoOpen(a: Review, b: Review, c: Review)
    requires a.childTaskId == b.childTaskId == c.childTaskId && a.updatedAt == b.updatedAt && Before(b.id, a.id)
    requires a.status.ReviewRejected? && Open(b) && c.status.ReviewSubmitted? && c.id != a.id && c.id != b.id
    ensures var d := Empty<Review>().Put(a.id, a).Put(b.id, b);
            var e := AfterStep(d, Submitted(c));
            StepOk(d, Submitted(c)) && OpenTogether(e, b.id, c.id) && b.id != c.id
  {
    BeforeTotal(a.id, b.id);
    var d := Empty<Review>().Put(a.id, a).Put(b.id, b);
    assert d.vals[a.id] == a && d.vals[b.id] == b && Later(d.vals[a.id], d.vals[b.id]);
  }

  // ---------- The verifier ----------

  /** Whether a record cites a place its review covers. */
  predicate InScope(review: Review, e: Evidence) {
    e.region.Some? ==> Inside(e.region.value, review.regions)
  }

  predicate SomeNotPassed(records: seq<Evidence>) {
    exists i :: 0 <= i < |records| && !records[i].observation.ObservedPass?
  }

  predicate SomeWithoutRegion(records: seq<Evidence>) {
    exists i :: 0 <= i < |records| && records[i].region.None?
  }

  predicate SomeOutside(review: Review, records: seq<Evidence>) {
    exists i :: 0 <= i < |records| && !InScope(review, records[i])
  }

  /** When a reason to block applies. */
  predicate Applies(reason: Reason, review: Review, ids: seq<string>, records: seq<Evidence>) {
    match reason
    case ReviewNotSubmitted => !review.status.ReviewSubmitted?
    case EvidenceMissing => records == []
    case ReferenceMissing => |records| != |ids|
    case NotObservedPass => SomeNotPassed(records)
    case RegionMissing => SomeWithoutRegion(records)
    case RegionOutOfScope => SomeOutside(review, records)
  }

  ghost predicate Unique(reasons: seq<Reason>) {
    forall i, j :: 0 <= i < j < |reasons| ==> reasons[i] != reasons[j]
  }

  /** The order reasons are listed in. */
  function Rank(reason: Reason): nat {
    match reason
    case ReviewNotSubmitted => 0 case EvidenceMissing => 1 case ReferenceMissing => 2
    case NotObservedPass => 3 case RegionMissing => 4 case RegionOutOfScope => 5
  }

  ghost predicate Ranked(reasons: seq<Reason>) {
    forall i, j :: 0 <= i < j < |reasons| ==> Rank(reasons[i]) < Rank(reasons[j])
  }

  method Judge(review: Review, ids: seq<string>, records: seq<Evidence>) returns (reasons: seq<Reason>)
    ensures forall reason :: reason in reasons <==> Applies(reason, review, ids, records)
    ensures Unique(reasons) && Ranked(reasons)
  {
    reasons := Note([], ReviewNotSubmitted, !review.status.ReviewSubmitted?);
    reasons := Note(reasons, EvidenceMissing, records == []);
    reasons := Note(reasons, ReferenceMissing, |records| != |ids|);
    reasons := Note(reasons, NotObservedPass, SomeNotPassed(records));
    reasons := Note(reasons, RegionMissing, SomeWithoutRegion(records));
    reasons := Note(reasons, RegionOutOfScope, SomeOutside(review, records));
  }

  /** Adds a reason when it applies. */
  method Note(reasons: seq<Reason>, reason: Reason, applies: bool) returns (r: seq<Reason>)
    requires reason !in reasons && Unique(reasons) && Ranked(reasons)
    requires forall x :: x in reasons ==> Rank(x) < Rank(reason)
    ensures Unique(r) && Ranked(r) && forall x :: x in r <==> x in reasons || (x == reason && applies)
  {
    r := if applies then reasons + [reason] else reasons;
  }

  /** Evidence that an id cites for a child, observed to pass, inside the given write regions. */
  ghost predicate Proven(child: string, evidence: seq<Evidence>, id: string, regions: seq<Region>) {
    && CitedBy(child, evidence, id)
    && var e := LastById(evidence, id).value;
       e.observation.ObservedPass? && e.region.Some? && Inside(e.region.value, regions)
  }

  /**
     Containment chains: evidence inside the review, the review inside the assignment, the assignment
     inside the boundary.
   */
  lemma InsideChain(r: Region, inner: seq<Region>, outer: seq<Region>)
    requires Inside(r, inner) && AllInside(inner, outer)
    ensures Inside(r, outer)
  {
    var i :| 0 <= i < |inner| && Covers(inner[i], r);
    var j :| 0 <= j < |outer| && Covers(outer[j], inner[i]);
    CoversTransitive(outer[j], inner[i], r);
  }

  /** Without a reason to block, every cited id is proven inside whatever holds the review's regions. */
  lemma NoReasonProves(child: string, evidence: seq<Evidence>, review: Review, ids: seq<string>, held: seq<Region>,
                       bounds: seq<Region>)
    requires forall reason :: !Applies(reason, review, ids, Cited(child, evidence, ids))
    requires AllInside(review.regions, held) && AllInside(held, bounds)
    ensures ids != [] && review.status.ReviewSubmitted?
    ensures forall k :: 0 <= k < |ids| ==> Proven(child, evidence, ids[k], bounds)
  {
    var records := Cited(child, evidence, ids);
    assert !Applies(ReferenceMissing, review, ids, records) && !Applies(EvidenceMissing, review, ids, records);
    assert !Applies(ReviewNotSubmitted, review, ids, records);
    AllCited(child, evidence, ids);
    forall k | 0 <= k < |ids| ensures Proven(child, evidence, ids[k], bounds) {
      assert !Applies(NotObservedPass, review, ids, records);
      assert !Applies(RegionMissing, review, ids, records);
      assert !Applies(RegionOutOfScope, review, ids, records);
      InsideChain(records[k].region.value, review.regions, held);
      InsideChain(records[k].region.value, held, bounds);
    }
  }

  /**
     Nothing else blocks: a submitted review whose ids, at least one, each cite the child's observed pass
     inside a region of the review gives no reason; and each reason stands for its own shortcoming.
   */
  lemma ProvenPasses(child: string, evidence: seq<Evidence>, review: Review, ids: seq<string>, reason: Reason)
    requires review.status.ReviewSubmitted? && ids != []
    requires forall k :: 0 <= k < |ids| ==> Proven(child, evidence, ids[k], review.regions)
    ensures !Applies(reason, review, ids, Cited(child, evidence, ids))
  {
    CitedInPlace(child, evidence, ids);
    var records := Cited(child, evidence, ids);
    forall k | 0 <= k < |records| ensures InScope(review, records[k]) && records[k].observation.ObservedPass? {
      assert Proven(child, evidence, ids[k], review.regions);
    }
    assert forall k :: 0 <= k < |records| ==> Proven(child, evidence, ids[k], review.regions);
  }

  /** What each reason about the records says, record by record. */
  lemma ReasonsSay(review: Review, ids: seq<string>, records: seq<Evidence>)
    ensures Applies(NotObservedPass, review, ids, records) <==>
              exists e :: e in records && !e.observation.ObservedPass?
    ensures Applies(RegionMissing, review, ids, records) <==> exists e :: e in records && e.region.None?
    ensures Applies(RegionOutOfScope, review, ids, records) <==>
              exists e :: e in records && e.region.Some?
                          && forall i :: 0 <= i < |review.regions| ==> !Covers(review.regions[i], e.region.value)
    ensures Applies(EvidenceMissing, review, ids, records) <==> |records| == 0
    ensures Applies(ReferenceMissing, review, ids, records) <==> |records| != |ids|
    ensures Applies(ReviewNotSubmitted, review, ids, records) <==>
              review.status.ReviewAccepted? || review.status.ReviewRejected?
  {}

  class VerifierService {
    const reviews: OwnerReviewService
    var verifications: map<string, VerificationRecord>

    constructor (reviews: OwnerReviewService)
      ensures this.reviews == reviews && verifications == map[]
    {
      this.reviews := reviews;
      verifications := map[];
    }

    /** The child's review at the expected version, when the verifier owns it and may write its regions. */
    method Reviewable(child: string, reviewId: string, verifier: string, expectedVersion: int)
      returns (r: Result<Review, ReviewError>)
      requires forall id :: id in reviews.reviews.vals ==> reviews.reviews.vals[id].regions != []
      ensures r.Ok? <==>
                && reviewId in reviews.reviews.vals
                && var review := reviews.reviews.vals[reviewId];
                && review.childTaskId == child && review.version == expectedVersion
                && child in reviews.assignments && reviews.assignments[child].status.ActiveOwner?
                && reviews.assignments[child].ownerAgentId == verifier == review.ownerAgentId
                && child in reviews.ownership.boundaries && HasActiveOwner(reviews.ownership.Live(), child)
                && reviews.ownership.assignments[child].ownerAgentId == verifier
                && AllInside(review.regions, reviews.ownership.assignments[child].writeRegions)
      ensures r.Ok? ==> r.value == reviews.reviews.vals[reviewId]
      ensures r.Err? ==>
                if reviewId !in reviews.reviews.vals || reviews.reviews.vals[reviewId].childTaskId != child
                then r == Err(NotFound)
                else if reviews.reviews.vals[reviewId].version != expectedVersion then r == Err(VersionConflict)
                else if child !in reviews.assignments || !reviews.assignments[child].status.ActiveOwner?
                then r == Err(OwnerMissing)
                else r == Err(WrongOwner) || r.error.NotAllowed?
    {
      if reviewId !in reviews.reviews.vals || reviews.reviews.vals[reviewId].childTaskId != child {
        return Err(NotFound);
      }
      var review := reviews.reviews.vals[reviewId];
      if review.version != expectedVersion { return Err(VersionConflict); }
      if child !in reviews.assignments || !reviews.assignments[child].status.ActiveOwner? { return Err(OwnerMissing); }
      var assignment := reviews.assignments[child];
      if assignment.ownerAgentId != verifier || review.ownerAgentId != verifier { return Err(WrongOwner); }
      var allowed := reviews.CheckRegions(child, verifier, review.regions);
      if allowed.Err? { return Err(NotAllowed(allowed.error)); }
      return Ok(review);
    }

    /**
     Verifies a review against recorded evidence. A pass means that every cited id is an observed pass
     inside a write region of the child's boundary, and the accept transition behind it does not fail
     for any reason but a refused commit.
     */
    method Verify(child: string, reviewId: string, verifier: string, evidenceIds: seq<string>, expectedVersion: int,
                  tasks: seq<TaskEvidence>, verificationId: string, now: int, quota: nat)
      returns (r: Result<VerificationRecord, ReviewError>)
      requires reviews.Synced() && Bounded(reviews.ownership.Live())
      requires forall id :: id in reviews.reviews.vals ==> reviews.reviews.vals[id].regions != []
      modifies this`verifications, reviews`log, reviews`reviews
      ensures r != Err(CommitRefused) ==> reviews.Synced()
      ensures r.Ok? ==>
                && reviewId in old(reviews.reviews).vals && child in reviews.ownership.boundaries
                && var review := old(reviews.reviews).vals[reviewId];
                && var ids := if evidenceIds == [] then review.evidenceIds else Dedupe(evidenceIds);
                && r.value == VerificationRecord(verificationId, child, reviewId, verifier, ids, r.value.status,
                                                 r.value.reasons, review.regions)
                && Ranked(r.value.reasons) && Unique(r.value.reasons)
                && (forall reason :: reason in r.value.reasons <==>
                      Applies(reason, review, ids, Cited(child, EvidenceFor(child, tasks), ids)))
                && (r.value.status.Passed? <==>
                      forall reason :: !Applies(reason, review, ids, Cited(child, EvidenceFor(child, tasks), ids)))
                && verifications == old(verifications)[verificationId := r.value]
                && reviews.log == old(reviews.log) + [VerificationWritten(r.value)]
                                  + (if r.value.status.Passed?
                                     then [ReviewWritten(Transitioned(review, ReviewAccepted, None, now))]
                                     else [])
                && reviews.reviews == if r.value.status.Passed?
                                      then old(reviews.reviews)
                                           .Put(reviewId, Transitioned(review, ReviewAccepted, None, now))
                                      else old(reviews.reviews)
      ensures r.Ok? && r.value.status.Passed? ==>
                && r.value.evidenceIds != []
                && forall k :: 0 <= k < |r.value.evidenceIds| ==>
                     Proven(child, EvidenceFor(child, tasks), r.value.evidenceIds[k],
                         reviews.ownership.boundaries[child].writeRegions)
      ensures r.Ok? || r == Err(CommitRefused) <==>
                && reviewId in old(reviews.reviews).vals
                && var review := old(reviews.reviews).vals[reviewId];
                && review.childTaskId == child && review.version == expectedVersion
                && child in reviews.assignments && reviews.assignments[child].status.ActiveOwner?
                && reviews.assignments[child].ownerAgentId == verifier == review.ownerAgentId
                && child in reviews.ownership.boundaries && HasActiveOwner(reviews.ownership.Live(), child)
                && reviews.ownership.assignments[child].ownerAgentId == verifier
                && AllInside(review.regions, reviews.ownership.assignments[child].writeRegions)
      ensures r.Err? && r != Err(CommitRefused) ==>
                if reviewId !in old(reviews.reviews).vals || old(reviews.reviews).vals[reviewId].childTaskId != child
                then r == Err(NotFound)
                else if old(reviews.reviews).vals[reviewId].version != expectedVersion then r == Err(VersionConflict)
                else if child !in reviews.assignments || !reviews.assignments[child].status.ActiveOwner?
                then r == Err(OwnerMissing)
                else r == Err(WrongOwner) || r.error.NotAllowed?
      ensures r.Err? && (quota == 0 || r != Err(CommitRefused)) ==> reviews.log == old(reviews.log)
      ensures r == Err(CommitRefused) ==>
                && verificationId in verifications
                && (quota > 0 ==>
                      reviews.log == old(reviews.log) + [VerificationWritten(verifications[verificationId])])
      ensures r != Err(WrongTransition) && r != Err(NoReason)
      ensures r.Err? && r != Err(CommitRefused) ==>
                verifications == old(verifications) && reviews.reviews == old(reviews.reviews)
    {
      ReplayedReviewsOk(reviews.log);
      var found := Reviewable(child, reviewId, verifier, expectedVersion);
      if found.Err? { return Err(found.error); }
      var review, ownership := found.value, reviews.ownership;
      var ids := Dedupe(evidenceIds);
      if ids == [] {
        ids := review.evidenceIds;
      }
      var records := Cited(child, EvidenceFor(child, tasks), ids);
      var reasons := Judge(review, ids, records);
      if reasons == [] {
        NoReasonProves(child, EvidenceFor(child, tasks), review, ids,
                       ownership.assignments[child].writeRegions, ownership.boundaries[child].writeRegions);
      } else {
        assert reasons[0] in reasons;
      }
      var record := VerificationRecord(verificationId, child, review.id, verifier, ids,
                                       if reasons == [] then Passed else BlockedByReasons, reasons, review.regions);
      verifications := verifications[record.id := record];
      if quota == 0 { return Err(CommitRefused); }
      reviews.Note(record);
      if record.status.Passed? {
        var accepted := reviews.Transition(review, ReviewAccepted, None, now, quota > 1);
        if accepted.Err? { return Err(accepted.error); }
      }
      return Ok(record);
    }
  }
}

/** First in, first out: the queue view over claims, requeues and restarts, and what admission without a check costs. */
module QueueOrder {
  import opened Prelude
  import opened Domain
  import opened StateMachine
  import opened Projection
  import opened AttemptHistory
  import opened Store
  import opened Execution

  lemma {:induction false} QueuedSplit(left: seq<string>, right: seq<string>, vals: map<string, WorkerAttempt>)
    ensures QueuedIn(left + right, vals) == QueuedIn(left, vals) + QueuedIn(right, vals)
  {
    if left == [] {
      assert left + right == right;
    } else {
      assert (left + right)[1..] == left[1..] + right;
      QueuedSplit(left[1..], right, vals);
    }
  }

  lemma {:induction false} QueuedFrame(keys: seq<string>, vals: map<string, WorkerAttempt>, id: string,
                                       a: WorkerAttempt)
    requires id !in keys
    ensures QueuedIn(keys, vals[id := a]) == QueuedIn(keys, vals)
  {
    if keys != [] { QueuedFrame(keys[1..], vals, id, a); }
  }

  lemma {:induction false} QueuedMembers(keys: seq<string>, vals: map<string, WorkerAttempt>, id: string)
    ensures id in QueuedIn(keys, vals) <==> id in keys && id in vals && vals[id].status.Queued?
  {
    if keys != [] { QueuedMembers(keys[1..], vals, id); }
  }

  lemma ReplacedBetween(left: seq<string>, id: string, right: seq<string>, vals: map<string, WorkerAttempt>,
                        a: WorkerAttempt)
    requires id !in left && id !in right
    ensures QueuedIn(left + ([id] + right), vals[id := a])
         == QueuedIn(left, vals) + (if a.status.Queued? then [id] else []) + QueuedIn(right, vals)
  {
    QueuedSplit(left, [id] + right, vals[id := a]);
    QueuedFrame(left, vals, id, a);
    QueuedFrame(right, vals, id, a);
    assert ([id] + right)[1..] == right;
  }

  /** Replacing the attempt at one place of the order changes the view at that place only. */
  lemma Replaced(d: Dict<WorkerAttempt>, p: nat, a: WorkerAttempt)
    requires d.Valid() && p < |d.keys|
    ensures QueuedIds(d.Put(d.keys[p], a))
         == QueuedIn(d.keys[..p], d.vals) + (if a.status.Queued? then [d.keys[p]] else [])
             + QueuedIn(d.keys[p + 1..], d.vals)
  {
    ReplacedBetween(d.keys[..p], d.keys[p], d.keys[p + 1..], d.vals, a);
    assert d.keys == d.keys[..p] + ([d.keys[p]] + d.keys[p + 1..]);
  }

  /** A requeued or recovered attempt waits where it was first enqueued, not at the end. */
  lemma RequeueKeepsPlace(d: Dict<WorkerAttempt>, p: nat, a: WorkerAttempt)
    requires d.Valid() && p < |d.keys| && !d.vals[d.keys[p]].status.Queued? && a.status.Queued?
    ensures var ahead := QueuedIn(d.keys[..p], d.vals);
            var behind := QueuedIn(d.keys[p + 1..], d.vals);
            && QueuedIds(d) == ahead + behind
            && QueuedIds(d.Put(d.keys[p], a)) == ahead + [d.keys[p]] + behind
  {
    Replaced(d, p, a);
    Replaced(d, p, d.vals[d.keys[p]]);
    assert d.Put(d.keys[p], d.vals[d.keys[p]]).vals == d.vals;
  }

  /** The place of the first queued attempt. */
  lemma {:induction false} FirstPlace(keys: seq<string>, vals: map<string, WorkerAttempt>) returns (p: nat)
    requires QueuedIn(keys, vals) != []
    ensures p < |keys| && keys[p] == QueuedIn(keys, vals)[0] && keys[p] in vals && vals[keys[p]].status.Queued?
    ensures QueuedIn(keys[..p], vals) == [] && QueuedIn(keys[p + 1..], vals) == QueuedIn(keys, vals)[1..]
  {
    if keys[0] in vals && vals[keys[0]].status.Queued? {
      p := 0;
    } else {
      var q := FirstPlace(keys[1..], vals);
      p := q + 1;
      assert keys[..p] == [keys[0]] + keys[1..][..q] && keys[p + 1..] == keys[1..][q + 1..];
      QueuedSplit([keys[0]], keys[1..][..q], vals);
    }
  }

  /** A claim takes the head of the queue and nothing else. */
  lemma ClaimPops(d: Dict<WorkerAttempt>, token: string, expires: int)
    requires d.Valid() && QueuedIds(d) != []
    ensures QueuedIds(d)[0] in d.vals
    ensures QueuedIds(d.Put(QueuedIds(d)[0], ClaimedFrom(d.vals[QueuedIds(d)[0]], token, expires))) == QueuedIds(d)[1..]
  {
    var p := FirstPlace(d.keys, d.vals);
    Replaced(d, p, ClaimedFrom(d.vals[d.keys[p]], token, expires));
  }

  /** The ids repeated claims take, in order, and the dictionary they leave, when storage accepts every commit. */
  function Drain(d: Dict<WorkerAttempt>, token: string, expires: int, fuel: nat): (seq<string>, Dict<WorkerAttempt>)
    decreases fuel
  {
    var waiting := QueuedIds(d);
    if fuel == 0 || waiting == [] || waiting[0] !in d.vals then ([], d)
    else
      var rest := Drain(d.Put(waiting[0], ClaimedFrom(d.vals[waiting[0]], token, expires)), token, expires, fuel - 1);
      ([waiting[0]] + rest.0, rest.1)
  }

  /** As many claims as attempts wait take each of them exactly once, in queue order, and then the queue is empty. */
  lemma {:induction false} DrainClaimsAll(d: Dict<WorkerAttempt>, token: string, expires: int, fuel: nat)
    requires d.Valid() && fuel >= |QueuedIds(d)|
    ensures Drain(d, token, expires, fuel).0 == QueuedIds(d)
    ensures QueuedIds(Drain(d, token, expires, fuel).1) == []
    decreases fuel
  {
    if QueuedIds(d) != [] {
      ClaimPops(d, token, expires);
      var head := QueuedIds(d)[0];
      var next := d.Put(head, ClaimedFrom(d.vals[head], token, expires));
      PutValid(d, head, ClaimedFrom(d.vals[head], token, expires));
      DrainClaimsAll(next, token, expires, fuel - 1);
    }
  }

  lemma {:induction false} QueuedDistinct(keys: seq<string>, vals: map<string, WorkerAttempt>)
    requires forall i, j :: 0 <= i < j < |keys| ==> keys[i] != keys[j]
    ensures forall i, j :: 0 <= i < j < |QueuedIn(keys, vals)| ==> QueuedIn(keys, vals)[i] != QueuedIn(keys, vals)[j]
  {
    if keys != [] {
      QueuedDistinct(keys[1..], vals);
      QueuedMembers(keys[1..], vals, keys[0]);
    }
  }

  /**
     At every point of a run, restarts included, the queue is the enqueue order filtered to what is
     queued, without repeats.
   */
  lemma QueueAfterRestart(log: seq<Event>)
    requires SafeLog(log)
    ensures Replay(log).Some?
    ensures var d := Replay(log).value.attempts;
            && QueuedIds(d) == QueuedIn(EnqueueOrder(log), d.vals)
            && (forall i, j :: 0 <= i < j < |QueuedIds(d)| ==> QueuedIds(d)[i] != QueuedIds(d)[j])
            && (forall id :: id in QueuedIds(d) <==> id in d.vals && d.vals[id].status.Queued?)
  {
    SafeLogReplays(log);
    OrderIsEnqueueOrder(log);
    var d := Replay(log).value.attempts;
    QueuedDistinct(d.keys, d.vals);
    forall id ensures id in QueuedIds(d) <==> id in d.vals && d.vals[id].status.Queued? {
      QueuedMembers(d.keys, d.vals, id);
    }
  }

  // ---------- Admission without a check ----------

  lemma AdmissionOccupies(s: State, a: WorkerAttempt, sid: string, id: string)
    requires StateOk(s) && sid != "" && EventOk(s, WorkerEvent(WorkerQueued, a, Some(sid)))
    ensures Occupies(Recorded(s, WorkerQueued, a, Some(sid)), sid, id) <==> Occupies(s, sid, id) || id == a.id
    ensures !Occupies(s, sid, a.id)
  {}

  /** An admission fills one more place of the session it is bound to. */
  lemma AdmissionCounts(s: State, a: WorkerAttempt, sid: string)
    requires StateOk(s) && sid != "" && EventOk(s, WorkerEvent(WorkerQueued, a, Some(sid)))
    ensures var t := Apply(s, WorkerEvent(WorkerQueued, a, Some(sid)));
            t.Some? && |ActiveSet(t.value, sid)| == |ActiveSet(s, sid)| + 1
  {
    var t := Recorded(s, WorkerQueued, a, Some(sid));
    forall id ensures id in ActiveSet(t, sid) <==> id in ActiveSet(s, sid) + {a.id} {
      AdmissionOccupies(s, a, sid, id);
    }
    AdmissionOccupies(s, a, sid, a.id);
    assert a.id !in ActiveSet(s, sid);
    assert ActiveSet(t, sid) == ActiveSet(s, sid) + {a.id};
  }

  /** `recover` asks for no room: the attempt it enqueues stays within the cap exactly when the session was not full. */
  lemma RecoverWithinCapacityIff(s: State, a: WorkerAttempt, sid: string)
    requires StateOk(s) && WithinCapacity(s) && sid in s.sessions && sid != ""
    requires EventOk(s, WorkerEvent(WorkerQueued, a, Some(sid)))
    ensures var t := Apply(s, WorkerEvent(WorkerQueued, a, Some(sid)));
            t.Some? && (WithinCapacity(t.value) <==> |ActiveSet(s, sid)| < s.sessions[sid].maxActiveWorkers)
  {
    AdmissionCounts(s, a, sid);
    var e := WorkerEvent(WorkerQueued, a, Some(sid));
    forall other | other in s.sessions && other != sid
      ensures |ActiveSet(Apply(s, e).value, other)| <= s.sessions[other].maxActiveWorkers
    {
      ActiveStep(s, e, other);
    }
  }

  /**
     The runner shows a final status before its commit. If that commit is refused and the process goes
     on, the next admission always passes its check on the live count; it keeps the journal within
     capacity exactly when the journal still had room.
   */
  lemma RefusedStopOverfills(s: State, was: WorkerAttempt, ended: WorkerAttempt, a: WorkerAttempt, sid: string)
    requires StateOk(s) && WithinCapacity(s) && sid in s.sessions && sid != ""
    requires was.id in s.attempts.vals && s.attempts.vals[was.id] == was && Occupies(s, sid, was.id)
    requires ended.id == was.id && Terminal(ended.status)
    requires EventOk(s, WorkerEvent(WorkerQueued, a, Some(sid)))
    ensures var live := s.(attempts := s.attempts.Put(ended.id, ended));
            var e := WorkerEvent(WorkerQueued, a, Some(sid));
            && EventOk(live, e) && Admitted(live, e) && Apply(s, e).Some?
            && (WithinCapacity(Apply(s, e).value) <==> |ActiveSet(s, sid)| < s.sessions[sid].maxActiveWorkers)
  {
    var live := s.(attempts := s.attempts.Put(ended.id, ended));
    assert ActiveSet(live, sid) == ActiveSet(s, sid) - {was.id};
    RecoverWithinCapacityIff(s, a, sid);
  }
}

/**
 The store: in-memory dictionaries beside the journal they are derived from. `Synced` is the
 property everything else rests on: the dictionaries are the replay of the journal.
 */
module Store {
  import opened Prelude
  import opened Domain
  import opened StateMachine
  import opened Projection
  import opened AttemptHistory

  /** The outcome of a commit is the environment's: storage may refuse any frame. */
  class Store {
    var log: seq<Event>
    var sessions: map<string, Session>
    var attempts: Dict<WorkerAttempt>
    var attemptSession: map<string, string>
    var terminalAcks: set<string>
    var leases: Dict<WriterLease>
    var integrations: Dict<IntegrationAttempt>

    ghost function Live(): State
      reads this
    {
      State(sessions, attempts, attemptSession, terminalAcks, leases, integrations)
    }

    ghost predicate Synced()
      reads this
    {
      Replay(log) == Some(Live())
    }

    /** Synced, on a journal only the services have written. */
    ghost predicate Sound()
      reads this
    {
      SafeLog(log) && Synced()
    }

    constructor (log: seq<Event>)
      ensures this.log == log && Live() == Initial
    {
      this.log := log;
      sessions, attempts, attemptSession, terminalAcks := map[], Empty(), map[], {};
      leases, integrations := Empty(), Empty();
    }

    /** Start-up replay; fails where replay raises. */
    method Rebuild() returns (ok: bool)
      requires Live() == Initial
      modifies this
      ensures log == old(log)
      ensures ok <==> Replay(log).Some?
      ensures ok ==> Synced()
    {
      for i := 0 to |log|
        invariant log == old(log) && Replay(log[..i]) == Some(Live())
      {
        ReplaySnoc(log[..i], log[i]);
        assert log[..i + 1] == log[..i] + [log[i]];
        ok := ReplayEvent(log[i]);
        if !ok {
          ReplayStuck(log, i + 1);
          return false;
        }
      }
      assert log[..|log|] == log;
      return true;
    }

    method ReplayEvent(e: Event) returns (ok: bool)
      modifies this
      ensures log == old(log)
      ensures if ok then Apply(old(Live()), e) == Some(Live()) else Apply(old(Live()), e) == None
    {
      ok := true;
      match e
      case SessionCreated(session) => sessions := sessions[session.id := session];
      case WorkerEvent(kind, a, sessionId) =>
        if Replayed(kind) {
          attempts := attempts.Put(a.id, a);
          if !kind.WorkerHandedOff? && Present(sessionId) {
            attemptSession := attemptSession[a.id := sessionId.value];
          }
          if kind.WorkerTerminalAck? {
            terminalAcks := terminalAcks + {a.id};
          }
        }
      case LeaseRecorded(_, lease) => leases := leases.Put(lease.id, lease);
      case LeaseReleased(id) =>
        if id !in leases.vals { return false; }
        var lease := leases.vals[id];
        leases := leases.Put(lease.id, lease.(status := Released, version := lease.version + 1));
      case IntegrationEvent(_, a) => integrations := integrations.Put(a.id, a);
      case OtherEvent(_) =>
    }

    method Commit(e: Event, stored: bool)
      modifies this`log
      ensures log == if stored then old(log) + [e] else old(log)
    {
      if stored { log := log + [e]; }
    }

    /** The queue's order: the journal first, the dictionary only once the frame is stored. */
    method CommitThenShow(kind: WorkerEventKind, a: WorkerAttempt, stored: bool)
      requires Sound() && IsRecord(kind) && EventOk(Live(), Record(kind, a))
      modifies this`log, this`attempts
      ensures Sound()
      ensures stored ==> log == old(log + [Record(kind, a)]) && attempts == old(attempts).Put(a.id, a)
      ensures !stored ==> log == old(log) && attempts == old(attempts)
      ensures old(CapacityLog(log)) ==> CapacityLog(log)
    {
      RecordApplied(kind, a);
      Commit(Record(kind, a), stored);
      if stored {
        attempts := attempts.Put(a.id, a);
      }
    }

    /**
     The other services' order: the dictionary first. A refused commit then leaves the dictionary
     ahead of the journal, exactly when the attempt had changed.
     */
    method ShowThenCommit(kind: WorkerEventKind, a: WorkerAttempt, stored: bool)
      requires Sound() && IsRecord(kind) && EventOk(Live(), Record(kind, a))
      requires a != attempts.vals[a.id]
      modifies this`log, this`attempts
      ensures SafeLog(log) && (Synced() <==> stored)
      ensures attempts == old(attempts).Put(a.id, a)
      ensures log == if stored then old(log + [Record(kind, a)]) else old(log)
      ensures old(CapacityLog(log)) ==> CapacityLog(log)
    {
      RecordApplied(kind, a);
      attempts := attempts.Put(a.id, a);
      Commit(Record(kind, a), stored);
      assert attempts.vals[a.id] != old(attempts).vals[a.id];
    }

    /**
     A status whose own event has no replay arm, followed by the checkpoint event that does. Both
     frames must be stored for a restart to see the status.
     */
    method ShowThenCommitTwice(kind: WorkerEventKind, a: WorkerAttempt, quota: nat)
      requires Sound() && !Replayed(kind) && EventOk(Live(), Record(WorkerCheckpointed, a))
      requires a != attempts.vals[a.id]
      modifies this`log, this`attempts
      ensures SafeLog(log) && (Synced() <==> quota >= 2)
      ensures old(CapacityLog(log)) ==> CapacityLog(log)
      ensures attempts == old(attempts).Put(a.id, a)
      ensures log == old(log) + UpTo([Record(kind, a), Record(WorkerCheckpointed, a)], quota)
    {
      var first, second := Record(kind, a), Record(WorkerCheckpointed, a);
      SafeLogReplays(log);
      TwoApplied(log, Live(), first, second);
      attempts := attempts.Put(a.id, a);
      Commit(first, quota >= 1);
      if quota >= 1 {
        Commit(second, quota >= 2);
      }
      assert old(attempts).vals[a.id] != attempts.vals[a.id];
      UpToTwo(old(log), first, second, quota);
    }

    /**
     Start-up reclaim: every attempt left claimed or running goes back to the queue if its resume
     point is safe, and is blocked otherwise. Its place in the queue order stays.
     */
    method ReclaimAttempts(safe: set<string>, quota: nat) returns (ok: bool)
      requires Sound()
      modifies this`log, this`attempts
      ensures SafeLog(log) && (Synced() <==> ok)
      ensures old(CapacityLog(log)) ==> CapacityLog(log)
      ensures attempts.keys == old(attempts).keys
      ensures var events := ReclaimEvents(attemptSession, old(attempts).keys, old(attempts).vals, safe);
              (ok <==> |events| <= quota) && log == old(log) + UpTo(events, quota)
      ensures ok ==> attempts.vals.Keys == old(attempts).vals.Keys
                     && forall id :: id in attempts.vals ==> attempts.vals[id] == Settled(old(attempts).vals[id], safe)
    {
      ghost var log0, before, sessions := log, attempts, attemptSession;
      SafeLogReplays(log);
      ghost var stop: nat;
      ok, stop := ReclaimEach(safe, quota);
      ReclaimAdmitsNone(log0, sessions, before.keys[..stop], before.vals, safe);
      if ok {
        TakeAll(before.keys);
        AllSettled(before, attempts.vals, safe);
      } else {
        ReclaimCut(sessions, before.keys, before.vals, safe, stop);
      }
    }

    /** Goes through the attempts in order, up to the first whose commit is refused. */
    method ReclaimEach(safe: set<string>, quota: nat) returns (ok: bool, ghost stop: nat)
      requires Sound() && StateOk(Live())
      modifies this`log, this`attempts
      ensures SafeLog(log) && (Synced() <==> ok)
      ensures attempts.keys == old(attempts).keys && stop <= |old(attempts).keys|
      ensures log == old(log) + ReclaimEvents(attemptSession, old(attempts).keys[..stop], old(attempts).vals, safe)
      ensures var done := |ReclaimEvents(attemptSession, old(attempts).keys[..stop], old(attempts).vals, safe)|;
              if ok then
                done <= quota && stop == |old(attempts).keys| && HalfSettled(old(attempts), attempts.vals, stop, safe)
              else done == quota && stop < |old(attempts).keys| && old(attempts).keys[stop] in old(attempts).vals
                   && Held(old(attempts).vals[old(attempts).keys[stop]])
    {
      var keys := attempts.keys;
      ghost var before, sessions, log0 := attempts, attemptSession, log;
      ghost var done: seq<Event> := [];
      var used: nat := 0;
      for i := 0 to |keys|
        invariant Sound() && attemptSession == sessions
        invariant done == ReclaimEvents(sessions, keys[..i], before.vals, safe)
        invariant log == log0 + done && used == |done| <= quota
        invariant attempts.keys == keys && before.Valid() && before.keys == keys
        invariant HalfSettled(before, attempts.vals, i, safe)
      {
        SettledStep(before, attempts.vals, i, safe);
        ReclaimSnoc(sessions, log0, keys, before.vals, safe, i);
        var accepted, counted := ReclaimKey(keys[i], safe, used < quota);
        if !accepted { return false, i; }
        used := used + counted;
        done := ReclaimEvents(sessions, keys[..i + 1], before.vals, safe);
      }
      return true, |keys|;
    }

    /** Reclaims the attempt if it is claimed or running, and counts its commit. */
    method ReclaimKey(id: string, safe: set<string>, stored: bool) returns (ok: bool, counted: nat)
      requires Sound() && id in attempts.vals
      modifies this`log, this`attempts
      ensures counted == (if Held(old(attempts).vals[id]) then 1 else 0) && ok == (stored || counted == 0)
      ensures SafeLog(log) && (Synced() <==> ok)
      ensures attempts.keys == old(attempts).keys
      ensures attempts.vals == old(attempts).vals[id := Settled(old(attempts).vals[id], safe)]
      ensures var event := ReclaimEvent(attemptSession, old(attempts).vals[id], safe);
              log == if stored && counted == 1 then old(log) + [event] else old(log)
    {
      if !Held(attempts.vals[id]) {
        assert attempts.vals[id := attempts.vals[id]] == attempts.vals;
        return true, 0;
      }
      ok := ReclaimOne(id, safe, stored);
      counted := 1;
    }

    method ReclaimOne(id: string, safe: set<string>, stored: bool) returns (ok: bool)
      requires Sound() && id in attempts.vals && Settled(attempts.vals[id], safe) != attempts.vals[id]
      modifies this`log, this`attempts
      ensures ok == stored && SafeLog(log) && (Synced() <==> stored)
      ensures attempts.keys == old(attempts).keys
      ensures attempts.vals == old(attempts).vals[id := Settled(old(attempts).vals[id], safe)]
      ensures var event := ReclaimEvent(attemptSession, old(attempts).vals[id], safe);
              log == if stored then old(log) + [event] else old(log)
    {
      SafeLogReplays(log);
      var updated := ReclaimedFrom(attempts.vals[id], safe);
      ShowThenCommit(if updated.status.Queued? then WorkerRecovered else WorkerBlocked, updated, stored);
      return stored;
    }

    /** Integration attempts are committed before they are shown. */
    method RecordIntegrationAttempt(kind: IntegrationEventKind, a: IntegrationAttempt, stored: bool)
      requires Synced()
      modifies this`log, this`integrations
      ensures Synced()
      ensures log == if stored then old(log) + [IntegrationEvent(kind, a)] else old(log)
      ensures integrations == if stored then old(integrations).Put(a.id, a) else old(integrations)
      ensures old(SafeLog(log)) ==> SafeLog(log)
    {
      ReplaySnoc(log, IntegrationEvent(kind, a));
      if SafeLog(log) { SafeLogSnoc(log, IntegrationEvent(kind, a)); }
      Commit(IntegrationEvent(kind, a), stored);
      if stored {
        integrations := integrations.Put(a.id, a);
      }
    }

    /** The event that records an attempt under the session it is bound to. */
    function Record(kind: WorkerEventKind, a: WorkerAttempt): Event
      reads this
    {
      Noted(attemptSession, kind, a)
    }

    lemma RecordApplied(kind: WorkerEventKind, a: WorkerAttempt)
      requires Sound() && IsRecord(kind) && EventOk(Live(), Record(kind, a))
      ensures Replay(log + [Record(kind, a)]) == Some(Live().(attempts := attempts.Put(a.id, a)))
      ensures SafeLog(log + [Record(kind, a)])
      ensures CapacityLog(log) ==> CapacityLog(log + [Record(kind, a)])
    {
      var e := Record(kind, a);
      ReplaySnoc(log, e);
      SafeLogSnoc(log, e);
      BindSame(attemptSession, a.id);
      assert (log + [e])[..|log|] == log;
    }
  }

  function ReclaimedFrom(a: WorkerAttempt, safe: set<string>): WorkerAttempt {
    var point := ResumePoint(a);
    var status := if point.Some? && point.value in safe then Queued else Blocked;
    a.(status := status, claimToken := None, claimExpires := None)
  }

  function Settled(a: WorkerAttempt, safe: set<string>): WorkerAttempt {
    if a.status.Claimed? || a.status.Running? then ReclaimedFrom(a, safe) else a
  }

  /** A reclaim admits nothing, so it leaves every session as full as it was. */
  lemma {:induction false} ReclaimAdmitsNone(log: seq<Event>, sessions: map<string, string>, keys: seq<string>,
                                             vals: map<string, WorkerAttempt>, safe: set<string>)
    requires SafeLog(log + ReclaimEvents(sessions, keys, vals, safe))
    ensures CapacityLog(log) ==> CapacityLog(log + ReclaimEvents(sessions, keys, vals, safe))
  {
    ReclaimKinds(sessions, keys, vals, safe);
    AdmitsNone(log, ReclaimEvents(sessions, keys, vals, safe));
  }

  lemma {:induction false} ReclaimKinds(sessions: map<string, string>, keys: seq<string>,
                                        vals: map<string, WorkerAttempt>, safe: set<string>)
    ensures forall e :: e in ReclaimEvents(sessions, keys, vals, safe) ==> e.WorkerEvent? && !e.workerKind.WorkerQueued?
  {
    if keys != [] { ReclaimKinds(sessions, keys[..|keys| - 1], vals, safe); }
  }

  lemma {:induction false} AdmitsNone(log: seq<Event>, more: seq<Event>)
    requires SafeLog(log + more) && forall e :: e in more ==> !(e.WorkerEvent? && e.workerKind.WorkerQueued?)
    ensures CapacityLog(log) ==> CapacityLog(log + more)
  {
    if more == [] {
      TakeAll(log);
    } else {
      var front := more[..|more| - 1];
      assert (log + more)[..|log + more| - 1] == log + front;
      AdmitsNone(log, front);
    }
  }

  ghost predicate HalfSettled(before: Dict<WorkerAttempt>, vals: map<string, WorkerAttempt>, i: nat, safe: set<string>)
  {
    HalfMapped(before, vals, i, (a: WorkerAttempt) => Settled(a, safe))
  }

  lemma SettledStep(before: Dict<WorkerAttempt>, vals: map<string, WorkerAttempt>, i: nat, safe: set<string>)
    requires before.Valid() && i < |before.keys| && HalfSettled(before, vals, i, safe)
    ensures before.keys[i] in vals && before.keys[i] in before.vals
              && vals[before.keys[i]] == before.vals[before.keys[i]]
    ensures HalfSettled(before, vals[before.keys[i] := Settled(before.vals[before.keys[i]], safe)], i + 1, safe)
  {
    HalfMappedStep(before, vals, i, (a: WorkerAttempt) => Settled(a, safe));
  }

  lemma AllSettled(before: Dict<WorkerAttempt>, vals: map<string, WorkerAttempt>, safe: set<string>)
    requires before.Valid() && HalfSettled(before, vals, |before.keys|, safe)
    ensures vals.Keys == before.vals.Keys && forall id :: id in vals ==> vals[id] == Settled(before.vals[id], safe)
  {
    AllMapped(before, vals, (a: WorkerAttempt) => Settled(a, safe));
  }

  /** An attempt's record under the session it is bound to. */
  function Noted(sessions: map<string, string>, kind: WorkerEventKind, a: WorkerAttempt): Event {
    WorkerEvent(kind, a, if a.id in sessions then Some(sessions[a.id]) else None)
  }

  /** As many of the events as storage accepts. */
  function UpTo(events: seq<Event>, quota: nat): seq<Event> {
    if |events| <= quota then events else events[..quota]
  }

  /** A refusal among the events of two steps falls into the first or into the second. */
  lemma UpToJoin(log: seq<Event>, first: seq<Event>, rest: seq<Event>, quota: nat)
    ensures log + UpTo(first + rest, quota)
         == if quota < |first| then log + UpTo(first, quota) else log + first + UpTo(rest, quota - |first|)
  {
    if |first| <= quota < |first| + |rest| {
      assert (first + rest)[..quota] == first + rest[..quota - |first|];
    } else if quota < |first| {
      assert (first + rest)[..quota] == first[..quota];
    }
    if quota >= |first| { Associative(log, first, UpTo(rest, quota - |first|)); }
  }

  lemma UpToTwo(log: seq<Event>, first: Event, second: Event, quota: nat)
    ensures log + UpTo([first, second], quota)
         == if quota == 0 then log else if quota == 1 then log + [first] else log + [first] + [second]
  {
    assert [first, second][..0] == [] && [first, second][..1] == [first];
    assert log + [first, second] == log + [first] + [second];
  }

  predicate Held(a: WorkerAttempt) {
    a.status.Claimed? || a.status.Running?
  }

  /** What a reclaim records, in dictionary order: a recovery for what waits again, a block for the rest. */
  function ReclaimEvents(sessions: map<string, string>, keys: seq<string>, vals: map<string, WorkerAttempt>,
                         safe: set<string>): seq<Event>
  {
    if keys == [] then []
    else
      var k := keys[|keys| - 1];
      ReclaimEvents(sessions, keys[..|keys| - 1], vals, safe)
      + if k in vals && Held(vals[k]) then [ReclaimEvent(sessions, vals[k], safe)] else []
  }

  function ReclaimEvent(sessions: map<string, string>, a: WorkerAttempt, safe: set<string>): Event {
    var updated := Settled(a, safe);
    Noted(sessions, if updated.status.Queued? then WorkerRecovered else WorkerBlocked, updated)
  }

  lemma {:induction false} ReclaimPrefix(sessions: map<string, string>, keys: seq<string>,
                                         vals: map<string, WorkerAttempt>, safe: set<string>, i: nat)
    requires i <= |keys|
    ensures ReclaimEvents(sessions, keys[..i], vals, safe) <= ReclaimEvents(sessions, keys, vals, safe)
    decreases |keys|
  {
    if i < |keys| {
      ReclaimPrefix(sessions, keys[..|keys| - 1], vals, safe, i);
      assert keys[..|keys| - 1][..i] == keys[..i];
    } else {
      TakeAll(keys);
    }
  }

  lemma ReclaimCut(sessions: map<string, string>, keys: seq<string>, vals: map<string, WorkerAttempt>,
                   safe: set<string>, i: nat)
    requires i < |keys| && keys[i] in vals && Held(vals[keys[i]])
    ensures var done := ReclaimEvents(sessions, keys[..i], vals, safe);
            var all := ReclaimEvents(sessions, keys, vals, safe);
            |all| > |done| && UpTo(all, |done|) == done
  {
    ReclaimSnoc(sessions, [], keys, vals, safe, i);
    ReclaimPrefix(sessions, keys, vals, safe, i + 1);
  }

  lemma ReclaimSnoc(sessions: map<string, string>, log: seq<Event>, keys: seq<string>,
                    vals: map<string, WorkerAttempt>, safe: set<string>, i: nat)
    requires i < |keys| && keys[i] in vals
    ensures var done := ReclaimEvents(sessions, keys[..i], vals, safe);
            var next := ReclaimEvents(sessions, keys[..i + 1], vals, safe);
            if Held(vals[keys[i]]) then
              && log + done + [ReclaimEvent(sessions, vals[keys[i]], safe)] == log + next
              && |next| == |done| + 1 && next[..|done|] == done
            else next == done
  {
    TakeSnoc(keys, i);
    var done := ReclaimEvents(sessions, keys[..i], vals, safe);
    Associative(log, done, [ReclaimEvent(sessions, vals[keys[i]], safe)]);
    TakeAll(done);
  }

  /** Kinds that replay as a plain replacement of the attempt. */
  predicate IsRecord(kind: WorkerEventKind) {
    Replayed(kind) && !kind.WorkerQueued? && !kind.WorkerTerminalAck? && !kind.WorkerHandedOff?
  }

  lemma BindSame(m: map<string, string>, id: string)
    ensures BindSession(m, id, if id in m then Some(m[id]) else None) == m
  {
    if id in m { assert m[id := m[id]] == m; }
  }

  lemma TwoApplied(log: seq<Event>, s: State, first: Event, second: Event)
    requires SafeLog(log) && Replay(log) == Some(s) && StateOk(s)
    requires first.WorkerEvent? && !Replayed(first.workerKind)
    requires second.WorkerEvent? && IsRecord(second.workerKind) && EventOk(s, second)
               && second.sessionId == SessionOf(s, second.attempt.id)
    ensures SafeLog(log + [first]) && Replay(log + [first]) == Some(s)
    ensures SafeLog(log + [first] + [second])
    ensures Replay(log + [first] + [second]) == Some(s.(attempts := s.attempts.Put(second.attempt.id, second.attempt)))
    ensures CapacityLog(log) ==> CapacityLog(log + [first]) && CapacityLog(log + [first] + [second])
  {
    SafeLogSnoc(log, first);
    ReplaySnoc(log, first);
    SafeLogSnoc(log + [first], second);
    ReplaySnoc(log + [first], second);
    BindSame(s.attemptSession, second.attempt.id);
    assert (log + [first])[..|log|] == log;
    assert (log + [first] + [second])[..|log + [first]|] == log + [first];
  }

  lemma {:induction false} ReplayStuck(log: seq<Event>, i: nat)
    requires i <= |log| && Replay(log[..i]) == None
    ensures Replay(log) == None
    decreases |log| - i
  {
    if i < |log| {
      assert log[..i + 1][..i] == log[..i];
      ReplayStuck(log, i + 1);
    } else {
      assert log[..i] == log;
    }
  }
}

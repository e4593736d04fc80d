/** The integration queue and the service that integrates change sets in plan order. */
module Integration {
  import opened Prelude
  import opened Domain
  import opened Paths
  import opened Projection
  import opened Workspace
  import opened Resolver
  import opened IntegrationRuns
  import Store

  // ---------- The queue ----------

  datatype QueueError = NotQueued | NotOwned | NotTerminal | CommitRefused

  datatype Claim = Claim(attempt: IntegrationAttempt, token: string)

  /** Plan order, then age, then id. */
  predicate Sooner(a: IntegrationAttempt, b: IntegrationAttempt) {
    || a.orderIndex < b.orderIndex
    || (a.orderIndex == b.orderIndex && a.createdAt < b.createdAt)
    || (a.orderIndex == b.orderIndex && a.createdAt == b.createdAt && Before(a.id, b.id))
  }

  lemma SoonerTransitive(a: IntegrationAttempt, b: IntegrationAttempt, c: IntegrationAttempt)
    requires Sooner(a, b) && Sooner(b, c)
    ensures Sooner(a, c)
  {
    if Before(a.id, b.id) && Before(b.id, c.id) { BeforeTransitive(a.id, b.id, c.id); }
  }

  lemma SoonerTotal(a: IntegrationAttempt, b: IntegrationAttempt)
    requires a.id != b.id
    ensures Sooner(a, b) <==> !Sooner(b, a)
  {
    BeforeTotal(a.id, b.id);
  }

  /** The order of claims: by place in the plan; at one place by age; at one age by id. */
  lemma SoonerIff(a: IntegrationAttempt, b: IntegrationAttempt)
    ensures a.orderIndex != b.orderIndex ==> (Sooner(a, b) <==> a.orderIndex < b.orderIndex)
    ensures a.orderIndex == b.orderIndex && a.createdAt != b.createdAt ==>
              (Sooner(a, b) <==> a.createdAt < b.createdAt)
    ensures a.orderIndex == b.orderIndex && a.createdAt == b.createdAt ==> (Sooner(a, b) <==> Before(a.id, b.id))
  {}

  function TerminalKind(s: IntegrationStatus): Option<IntegrationEventKind> {
    match s
    case Integrated => Some(AttemptCompleted)
    case Conflicted => Some(AttemptConflict)
    case Rejected => Some(AttemptBlocked)
    case _ => None
  }

  function RecoveredFrom(a: IntegrationAttempt, at: int): IntegrationAttempt {
    a.(status := IntegrationQueued, version := a.version + 1, updatedAt := at)
  }

  function AfterRecovery(a: IntegrationAttempt, at: int): IntegrationAttempt {
    if a.status.IntegrationRunning? then RecoveredFrom(a, at) else a
  }

  function RunningIn(keys: seq<string>, vals: map<string, IntegrationAttempt>): nat {
    if keys == [] then 0
    else
      var k := keys[|keys| - 1];
      RunningIn(keys[..|keys| - 1], vals) + if k in vals && vals[k].status.IntegrationRunning? then 1 else 0
  }

  /** What a recovery records: every running attempt, put back under the next version, in dictionary order. */
  function RecoveryEvents(keys: seq<string>, vals: map<string, IntegrationAttempt>, at: int): seq<Event> {
    if keys == [] then []
    else
      var k := keys[|keys| - 1];
      RecoveryEvents(keys[..|keys| - 1], vals, at)
      + if k in vals && vals[k].status.IntegrationRunning?
        then [IntegrationEvent(AttemptRequeued, RecoveredFrom(vals[k], at))] else []
  }

  /** A recovered attempt is queued under the next version; nothing else of it changes. */
  lemma RecoveredAgain(a: IntegrationAttempt, at: int)
    ensures var r := AfterRecovery(a, at);
            && !r.status.IntegrationRunning?
            && (!a.status.IntegrationRunning? ==> r == a)
            && (a.status.IntegrationRunning? ==>
                  && r.status.IntegrationQueued? && r.version == a.version + 1 && r.updatedAt == at
                  && r.(status := a.status, version := a.version, updatedAt := a.updatedAt) == a)
  {}

  ghost predicate IdsOk(d: Dict<IntegrationAttempt>) {
    d.Valid() && forall id :: id in d.vals ==> d.vals[id].id == id
  }

  class IntegrationQueue {
    const store: Store.Store
    var claims: map<string, string>

    constructor (store: Store.Store)
      ensures this.store == store && claims == map[]
    {
      this.store := store;
      claims := map[];
    }

    predicate Candidate(k: string, wanted: Option<string>)
      reads this, store
    {
      k in store.integrations.vals && store.integrations.vals[k].status.IntegrationQueued? && k !in claims
      && (wanted.None? || k == wanted.value)
    }

    method Enqueue(a: IntegrationAttempt, stored: bool) returns (r: Result<IntegrationAttempt, QueueError>)
      requires store.Synced()
      modifies store`log, store`integrations
      ensures AppendsIntegration(old(store.log), store.log)
      ensures store.Synced()
      ensures r == if !a.status.IntegrationQueued? then Err(NotQueued) else if stored then Ok(a) else Err(CommitRefused)
      ensures store.integrations == if r.Ok? then old(store.integrations).Put(a.id, a) else old(store.integrations)
      ensures store.log == if r.Ok? then old(store.log) + [IntegrationEvent(AttemptQueued, a)] else old(store.log)
    {
      if !a.status.IntegrationQueued? { return Err(NotQueued); }
      store.RecordIntegrationAttempt(AttemptQueued, a, stored);
      return if stored then Ok(a) else Err(CommitRefused);
    }

    /** Claims the soonest queued attempt nobody holds, or the wanted one. */
    method ClaimNext(wanted: Option<string>, token: string, at: int, stored: bool)
      returns (r: Result<Option<Claim>, QueueError>)
      requires store.Synced() && IdsOk(store.integrations)
      modifies this`claims, store`log, store`integrations
      ensures AppendsIntegration(old(store.log), store.log)
      ensures store.Synced()
      ensures r == Ok(None) <==> forall k :: k in old(store.integrations).vals ==> !old(Candidate(k, wanted))
      ensures r == Ok(None) ==>
                forall k :: k in old(store.integrations).vals && (wanted.None? || wanted.value == k) ==>
                  k in old(claims) || !old(store.integrations).vals[k].status.IntegrationQueued?
      ensures r.Ok? && r.value.Some? ==>
                && stored
                && var id := r.value.value.attempt.id;
                && old(Candidate(id, wanted))
                && id in old(store.integrations).vals && id !in old(claims) && (wanted.None? || wanted.value == id)
                && old(store.integrations).vals[id].status.IntegrationQueued?
                && (forall k :: k in old(store.integrations).vals && old(Candidate(k, wanted)) && k != id ==>
                      Sooner(old(store.integrations).vals[id], old(store.integrations).vals[k]))
                && var was := old(store.integrations).vals[id];
                && r.value.value
                     == Claim(was.(status := IntegrationRunning, version := was.version + 1, updatedAt := at), token)
                && store.integrations == old(store.integrations).Put(id, r.value.value.attempt)
                && store.log == old(store.log) + [IntegrationEvent(AttemptStarted, r.value.value.attempt)]
                && claims == old(claims)[id := token]
      ensures r.Err? ==> r == Err(CommitRefused) && !stored
      ensures r.Err? || r.value.None? ==>
                store.integrations == old(store.integrations) && store.log == old(store.log) && claims == old(claims)
    {
      var best := FindSoonest(wanted);
      if best.None? { return Ok(None); }
      var was := best.value;
      var running := was.(status := IntegrationRunning, version := was.version + 1, updatedAt := at);
      store.RecordIntegrationAttempt(AttemptStarted, running, stored);
      if !stored { return Err(CommitRefused); }
      claims := claims[running.id := token];
      return Ok(Some(Claim(running, token)));
    }

    method FindSoonest(wanted: Option<string>) returns (best: Option<IntegrationAttempt>)
      requires IdsOk(store.integrations)
      ensures best.None? <==> forall k :: k in store.integrations.vals ==> !Candidate(k, wanted)
      ensures best.Some? ==>
                && Candidate(best.value.id, wanted) && store.integrations.vals[best.value.id] == best.value
                && forall k :: k in store.integrations.vals && Candidate(k, wanted) && k != best.value.id ==>
                     Sooner(best.value, store.integrations.vals[k])
    {
      best := None;
      var keys, vals := store.integrations.keys, store.integrations.vals;
      for i := 0 to |keys|
        invariant best.None? ==> forall j :: 0 <= j < i ==> !Candidate(keys[j], wanted)
        invariant best.Some? ==>
                    && Candidate(best.value.id, wanted) && vals[best.value.id] == best.value
                    && forall j :: 0 <= j < i && Candidate(keys[j], wanted) && keys[j] != best.value.id ==>
                         Sooner(best.value, vals[keys[j]])
      {
        var a := vals[keys[i]];
        if Candidate(keys[i], wanted) {
          if best.None? {
            best := Some(a);
          } else {
            var b := best.value;
            if b.id != a.id { SoonerTotal(a, b); }
            if Sooner(a, b) {
              forall j | 0 <= j < i && Candidate(keys[j], wanted) && keys[j] != b.id ensures Sooner(a, vals[keys[j]]) {
                SoonerTransitive(a, b, vals[keys[j]]);
              }
              best := Some(a);
            }
          }
        }
      }
      forall k | k in vals ensures exists j :: 0 <= j < |keys| && keys[j] == k {}
    }

    method Ack(claim: Claim, terminal: IntegrationAttempt, stored: bool)
      returns (r: Result<IntegrationAttempt, QueueError>)
      requires store.Synced()
      modifies this`claims, store`log, store`integrations
      ensures AppendsIntegration(old(store.log), store.log)
      ensures store.Synced()
      ensures r == if !(claim.attempt.id in old(claims) && old(claims)[claim.attempt.id] == claim.token)
                   then Err(NotOwned)
                   else if terminal.id != claim.attempt.id || TerminalKind(terminal.status).None? then Err(NotTerminal)
                   else if stored then Ok(terminal) else Err(CommitRefused)
      ensures store.integrations ==
                if r.Ok? then old(store.integrations).Put(terminal.id, terminal) else old(store.integrations)
      ensures store.log == if r.Ok?
                           then old(store.log) + [IntegrationEvent(KindOf(old(store.integrations), terminal), terminal)]
                           else old(store.log)
      ensures claims == if r.Ok? then old(claims) - {claim.attempt.id} else old(claims)
    {
      if !(claim.attempt.id in claims && claims[claim.attempt.id] == claim.token) { return Err(NotOwned); }
      var kind := TerminalKind(terminal.status);
      if terminal.id != claim.attempt.id || kind.None? { return Err(NotTerminal); }
      store.RecordIntegrationAttempt(kind.value, terminal, stored);
      if !stored { return Err(CommitRefused); }
      claims := claims - {claim.attempt.id};
      return Ok(terminal);
    }

    method Requeue(claim: Claim, message: Option<string>, at: int, stored: bool)
      returns (r: Result<IntegrationAttempt, QueueError>)
      requires store.Synced()
      modifies this`claims, store`log, store`integrations
      ensures AppendsIntegration(old(store.log), store.log)
      ensures store.Synced()
      ensures r == if !(claim.attempt.id in old(claims) && old(claims)[claim.attempt.id] == claim.token)
                   then Err(NotOwned)
                   else if stored then Ok(RequeuedAttempt(claim.attempt, message, at)) else Err(CommitRefused)
      ensures store.integrations ==
                if r.Ok? then old(store.integrations).Put(claim.attempt.id, r.value) else old(store.integrations)
      ensures store.log == if r.Ok? then old(store.log) + [IntegrationEvent(AttemptRequeued, r.value)]
                           else old(store.log)
      ensures claims == if r.Ok? then old(claims) - {claim.attempt.id} else old(claims)
    {
      if !(claim.attempt.id in claims && claims[claim.attempt.id] == claim.token) { return Err(NotOwned); }
      var queued := RequeuedAttempt(claim.attempt, message, at);
      store.RecordIntegrationAttempt(AttemptRequeued, queued, stored);
      if !stored { return Err(CommitRefused); }
      claims := claims - {claim.attempt.id};
      return Ok(queued);
    }

    /** Puts every running attempt back, one commit each; a refused commit stops the sweep and keeps the claims. */
    method Recover(at: int, quota: nat) returns (r: Result<nat, QueueError>)
      requires store.Synced() && IdsOk(store.integrations)
      modifies this`claims, store`log, store`integrations
      ensures AppendsIntegration(old(store.log), store.log)
      ensures store.Synced()
      ensures r == if RunningIn(old(store.integrations).keys, old(store.integrations).vals) <= quota
                   then Ok(RunningIn(old(store.integrations).keys, old(store.integrations).vals))
                   else Err(CommitRefused)
      ensures store.integrations.keys == old(store.integrations).keys
      ensures var events := RecoveryEvents(old(store.integrations).keys, old(store.integrations).vals, at);
              store.log == old(store.log) + Store.UpTo(events, quota)
      ensures r.Err? ==> claims == old(claims)
      ensures r.Ok? ==>
                && claims == map[]
                && store.integrations.vals.Keys == old(store.integrations).vals.Keys
                && forall id :: id in store.integrations.vals ==>
                     store.integrations.vals[id] == AfterRecovery(old(store.integrations).vals[id], at)
    {
      ghost var before := store.integrations;
      var keys := store.integrations.keys;
      var count: nat := 0;
      for i := 0 to |keys|
        invariant store.Synced() && store.integrations.keys == keys && count <= quota
        invariant HalfMapped(before, store.integrations.vals, i, (a: IntegrationAttempt) => AfterRecovery(a, at))
        invariant count == RunningIn(keys[..i], before.vals) && claims == old(claims)
        invariant store.log == old(store.log) + RecoveryEvents(keys[..i], before.vals, at)
        invariant AppendsIntegration(old(store.log), store.log)
      {
        HalfMappedStep(before, store.integrations.vals, i, (a: IntegrationAttempt) => AfterRecovery(a, at));
        RunningSnoc(keys, before.vals, i);
        RecoverySnoc(old(store.log), keys, before.vals, at, i);
        var a := store.integrations.vals[keys[i]];
        if a.status.IntegrationRunning? {
          store.RecordIntegrationAttempt(AttemptRequeued, RecoveredFrom(a, at), count < quota);
          if count == quota {
            RunningGrows(keys, before.vals, i + 1);
            RecoveryCut(keys, before.vals, at, i);
            return Err(CommitRefused);
          }
          count := count + 1;
        }
      }
      AllMapped(before, store.integrations.vals, (a: IntegrationAttempt) => AfterRecovery(a, at));
      assert keys[..|keys|] == keys;
      RecoveryCount(keys, before.vals, at);
      claims := map[];
      return Ok(count);
    }
  }

  lemma RunningSnoc(keys: seq<string>, vals: map<string, IntegrationAttempt>, i: nat)
    requires i < |keys|
    ensures RunningIn(keys[..i + 1], vals)
         == RunningIn(keys[..i], vals) + if keys[i] in vals && vals[keys[i]].status.IntegrationRunning? then 1 else 0
  {
    assert keys[..i + 1][..i] == keys[..i];
  }

  lemma RecoverySnoc(log: seq<Event>, keys: seq<string>, vals: map<string, IntegrationAttempt>, at: int, i: nat)
    requires i < |keys| && keys[i] in vals
    ensures var done, next := RecoveryEvents(keys[..i], vals, at), RecoveryEvents(keys[..i + 1], vals, at);
            if vals[keys[i]].status.IntegrationRunning? then
              && log + done + [IntegrationEvent(AttemptRequeued, RecoveredFrom(vals[keys[i]], at))] == log + next
              && |next| == |done| + 1 && next[..|done|] == done
            else next == done
  {
    TakeSnoc(keys, i);
    var done := RecoveryEvents(keys[..i], vals, at);
    Associative(log, done, [IntegrationEvent(AttemptRequeued, RecoveredFrom(vals[keys[i]], at))]);
    TakeAll(done);
  }

  lemma {:induction false} RecoveryCount(keys: seq<string>, vals: map<string, IntegrationAttempt>, at: int)
    ensures |RecoveryEvents(keys, vals, at)| == RunningIn(keys, vals)
  {
    if keys != [] { RecoveryCount(keys[..|keys| - 1], vals, at); }
  }

  lemma {:induction false} RecoveryPrefix(keys: seq<string>, vals: map<string, IntegrationAttempt>, at: int, i: nat)
    requires i <= |keys|
    ensures RecoveryEvents(keys[..i], vals, at) <= RecoveryEvents(keys, vals, at)
    decreases |keys|
  {
    if i < |keys| {
      RecoveryPrefix(keys[..|keys| - 1], vals, at, i);
      assert keys[..|keys| - 1][..i] == keys[..i];
    } else {
      TakeAll(keys);
    }
  }

  lemma RecoveryCut(keys: seq<string>, vals: map<string, IntegrationAttempt>, at: int, i: nat)
    requires i < |keys| && keys[i] in vals && vals[keys[i]].status.IntegrationRunning?
    ensures Store.UpTo(RecoveryEvents(keys, vals, at), RunningIn(keys[..i], vals))
         == RecoveryEvents(keys[..i], vals, at)
  {
    RecoverySnoc([], keys, vals, at, i);
    RecoveryPrefix(keys, vals, at, i + 1);
    RecoveryCount(keys[..i], vals, at);
  }

  lemma {:induction false} RunningGrows(keys: seq<string>, vals: map<string, IntegrationAttempt>, i: nat)
    requires i <= |keys|
    ensures RunningIn(keys[..i], vals) <= RunningIn(keys, vals)
    decreases |keys| - i
  {
    if i < |keys| {
      RunningSnoc(keys, vals, i);
      RunningGrows(keys, vals, i + 1);
    } else {
      assert keys[..i] == keys;
    }
  }

  /** Every journal replays to attempts filed under their own ids. */
  lemma {:induction false} ReplayedIdsOk(log: seq<Event>)
    requires Replay(log).Some?
    ensures IdsOk(Replay(log).value.integrations)
  {
    if log != [] {
      ReplayedIdsOk(log[..|log| - 1]);
      var s, e := Replay(log[..|log| - 1]).value, log[|log| - 1];
      if e.IntegrationEvent? { PutValid(s.integrations, e.integration.id, e.integration); }
    }
  }

  // ---------- The service ----------

  datatype ServiceError = Stopped | BadReference

  /** How far one reference got: through, cut short, or refused outright. */
  datatype Progress = Through(report: Outcome, goesOn: bool) | CutShort | BadRef

  class IntegrationService {
    const store: Store.Store
    const adapter: CanonicalTree
    const queue: IntegrationQueue?
    var claims: map<string, Claim>

    /** The claims held here are held in the queue too. */
    ghost predicate Wired()
      reads this, queue
    {
      && (queue != null ==> queue.store == store)
      && (forall id :: id in claims ==>
            && queue != null && claims[id].attempt.id == id
            && id in queue.claims && queue.claims[id] == claims[id].token)
    }

    constructor (store: Store.Store, adapter: CanonicalTree, queue: IntegrationQueue?)
      requires queue != null ==> queue.store == store
      ensures this.store == store && this.adapter == adapter && this.queue == queue && claims == map[] && Wired()
    {
      this.store := store;
      this.adapter := adapter;
      this.queue := queue;
      claims := map[];
    }

    method PersistQueued(a: IntegrationAttempt, stored: bool)
      requires Wired() && store.Synced() && a.status.IntegrationQueued?
      modifies store`log, store`integrations
      ensures AppendsIntegration(old(store.log), store.log)
      ensures Wired() && store.Synced()
      ensures store.log == if stored then old(store.log) + [IntegrationEvent(AttemptQueued, a)] else old(store.log)
      ensures store.integrations == if stored then old(store.integrations).Put(a.id, a) else old(store.integrations)
    {
      if queue != null {
        var r := queue.Enqueue(a, stored);
      } else {
        store.RecordIntegrationAttempt(AttemptQueued, a, stored);
      }
    }

    method PersistStarted(queued: IntegrationAttempt, a: IntegrationAttempt, stored: bool)
      requires Wired() && store.Synced() && IdsOk(store.integrations)
      requires queued.id in store.integrations.vals && store.integrations.vals[queued.id] == queued
                 && queued.status.IntegrationQueued?
      requires a == queued.(status := IntegrationRunning, version := queued.version + 1, updatedAt := a.updatedAt)
      requires queue != null ==> a.id !in queue.claims
      modifies store`log, store`integrations, this`claims, queue
      ensures AppendsIntegration(old(store.log), store.log)
      ensures Wired() && store.Synced()
      ensures store.log == if stored then old(store.log) + [IntegrationEvent(AttemptStarted, a)] else old(store.log)
      ensures store.integrations == if stored then old(store.integrations).Put(a.id, a) else old(store.integrations)
      ensures queue != null ==> queue.claims.Keys <= old(queue.claims.Keys) + {a.id}
      ensures queue == null ==> claims == old(claims)
    {
      if queue != null {
        assert queue.Candidate(a.id, Some(a.id));
        var claim := queue.ClaimNext(Some(a.id), "local", a.updatedAt, stored);
        if claim.Ok? { claims := claims[a.id := claim.value.value]; }
      } else {
        store.RecordIntegrationAttempt(AttemptStarted, a, stored);
      }
    }

    method PersistTerminal(a: IntegrationAttempt, stored: bool)
      requires Wired() && store.Synced() && TerminalKind(a.status).Some?
      modifies store`log, store`integrations, this`claims, queue
      ensures AppendsIntegration(old(store.log), store.log)
      ensures Wired() && store.Synced()
      ensures store.log == if stored
                           then old(store.log) + [IntegrationEvent(KindOf(old(store.integrations), a), a)]
                           else old(store.log)
      ensures store.integrations == if stored then old(store.integrations).Put(a.id, a) else old(store.integrations)
      ensures queue != null ==> queue.claims.Keys <= old(queue.claims.Keys)
    {
      if a.id in claims {
        var claim := claims[a.id];
        claims := claims - {a.id};
        var r := queue.Ack(claim, a, stored);
      } else {
        store.RecordIntegrationAttempt(TerminalKind(a.status).value, a, stored);
      }
    }

    /**
     One reference of an order. `steps` is the number of actions left before the process stops or
     storage refuses: each commit is one, and so is each run of the adapter, whether it succeeds or not.
     */
    method IntegrateOne(o: Order, ref: string, index: int, f: Stamp, steps: nat, ghost w: World)
      returns (end: Progress, left: nat)
      requires Wired() && store.Synced() && IdsOk(store.integrations)
      requires Shows(w)
      requires f.id !in store.integrations.vals && (queue != null ==> f.id !in queue.claims)
      modifies store`log, store`integrations, this`claims, queue, adapter
      ensures Wired() && store.Synced()
      ensures var s := Item(o, w, ref, index, f);
              if s.InvalidRef? then end == BadRef && Shows(w)
              else if steps < |s.actions| then
                end == CutShort && Shows(DoAll(w, s.actions[..steps]))
              else
                end == Through(s.report, s.goesOn) && left == steps - |s.actions| && Shows(DoAll(w, s.actions))
      ensures queue != null ==> queue.claims.Keys <= old(queue.claims.Keys) + {f.id}
    {
      if o.recover {
        var previous := Latest(store.integrations, ref, o.parent);
        if previous.Some? {
          return Through(Repeated(previous.value, ref).0, Repeated(previous.value, ref).1), steps;
        }
      }
      if !ValidRef(ref) { return BadRef, steps; }
      end, left := IntegrateNew(o, ref, index, f, steps, w);
    }

    method IntegrateNew(o: Order, ref: string, index: int, f: Stamp, steps: nat, ghost w: World)
      returns (end: Progress, left: nat)
      requires Wired() && store.Synced() && IdsOk(store.integrations) && Shows(w)
      requires f.id !in store.integrations.vals && (queue != null ==> f.id !in queue.claims)
      modifies store`log, store`integrations, this`claims, queue, adapter
      ensures Wired() && store.Synced()
      ensures var final := Final(o, w.tree, ref, index, f);
              var actions := Actions(o, ref, index, f, final);
              if steps < |actions| then end == CutShort && Shows(DoAll(w, actions[..steps]))
              else
                && end == Through(final.report, final.replaced.Some?) && left == steps - |actions|
                && Shows(DoAll(w, actions))
      ensures queue != null ==> queue.claims.Keys <= old(queue.claims.Keys) + {f.id}
    {
      ghost var final := Final(o, w.tree, ref, index, f);
      var queued := QueuedAttempt(o, ref, index, f);
      var started := StartedAttempt(queued, f);
      TwoThen(w, Record(queued), Record(started), Ending(ref, final), steps);
      PersistQueued(queued, steps > 0);
      if steps == 0 { return CutShort, 0; }
      PutIdsOk(w.integrations, queued);
      PersistStarted(queued, started, steps > 1);
      if steps == 1 { return CutShort, 0; }
      end, left := Conclude(o, ref, index, f, started, steps - 2, Do(Do(w, Record(queued)), Record(started)));
    }

    /** Everything behind the second commit: the change set, the tree, the final record. */
    method Conclude(o: Order, ref: string, index: int, f: Stamp, started: IntegrationAttempt, steps: nat,
                    ghost w: World)
      returns (end: Progress, left: nat)
      requires Wired() && store.Synced() && Shows(w)
      requires started == StartedAttempt(QueuedAttempt(o, ref, index, f), f)
      modifies store`log, store`integrations, this`claims, queue, adapter
      ensures Wired() && store.Synced()
      ensures var final := Final(o, w.tree, ref, index, f);
              var actions := Ending(ref, final);
              if steps < |actions| then end == CutShort && Shows(DoAll(w, actions[..steps]))
              else
                && end == Through(final.report, final.replaced.Some?) && left == steps - |actions|
                && Shows(DoAll(w, actions))
      ensures queue != null ==> queue.claims.Keys <= old(queue.claims.Keys)
    {
      EndingStages(w, ref, Final(o, w.tree, ref, index, f));
      if steps == 0 { return CutShort, 0; }
      if ref !in o.changeSets {
        PersistTerminal(MissingAttempt(started, f), true);
        return Through(MissingReport(ref), false), steps - 1;
      }
      var report, ran, replaced := SettleAndRecord(o, o.changeSets[ref], started, f, steps > 1);
      if ran && steps == 1 { return CutShort, 0; }
      return Through(report, replaced), if ran then steps - 2 else steps - 1;
    }

    /**
     Maps the observed changes to leases, runs the adapter, and records how it went. `stored` is the
     fate of the record behind a run; without a run the record is the next action and is stored.
     */
    method SettleAndRecord(o: Order, cs: ChangeSet, started: IntegrationAttempt, f: Stamp, stored: bool)
      returns (report: Outcome, ran: bool, replaced: bool)
      requires Wired() && store.Synced()
      modifies store`log, store`integrations, this`claims, queue, adapter
      ensures Wired() && store.Synced()
      ensures var end := EndOf(o, old(adapter.files), cs, started, f);
              && report == end.report && ran == end.ran && replaced == end.replaced.Some?
              && adapter.files == (if replaced then end.replaced.value else old(adapter.files))
              && adapter.runs == old(adapter.runs) + (if ran then 1 else 0)
              && store.log == (if ran && !stored then old(store.log)
                               else old(store.log)
                                    + [IntegrationEvent(KindOf(old(store.integrations), end.last), end.last)])
              && store.integrations == if ran && !stored then old(store.integrations)
                                       else old(store.integrations).Put(end.last.id, end.last)
      ensures queue != null ==> queue.claims.Keys <= old(queue.claims.Keys)
    {
      var settled;
      settled, ran := Settle(o, cs);
      replaced := settled.Ok?;
      var last: IntegrationAttempt;
      if settled.Ok? {
        last := IntegratedAttempt(started, cs.ownerId, settled.value, f);
        report := IntegratedReport(started.clientRef, cs.ownerId, settled.value);
      } else {
        last := FailedAttempt(started, o, cs.ownerId, settled.error, f);
        report := FailedReport(started.clientRef, o, cs.ownerId, settled.error);
      }
      PersistTerminal(last, stored || !ran);
    }

    /** Resolves every changed path, and only then runs the adapter, once. */
    method Settle(o: Order, cs: ChangeSet) returns (r: Result<string, Reason>, ran: bool)
      modifies adapter
      ensures ran == (r != Err(Unresolved)) && adapter.runs == old(adapter.runs) + (if ran then 1 else 0)
      ensures match Settled(o, old(adapter.files), cs)
              case Ok(t) => adapter.files == t && r == Ok(Revision(o.h, t))
              case Err(e) => adapter.files == old(adapter.files) && r == Err(e)
    {
      var regions := ResolveChangeSet(cs, o.leases);
      if regions.Err? { return Err(Unresolved), false; }
      var snapshot := adapter.Integrate(o.h, cs, o.leases);
      return if snapshot.Ok? then Ok(snapshot.value) else Err(Refused(snapshot.error)), true;
    }

    ghost predicate Shows(w: World)
      reads store, adapter
    {
      && store.integrations == w.integrations && store.log == w.log
      && adapter.files == w.tree && adapter.runs == |w.ran|
    }

    /**
     Integrates in plan order until a reference does not integrate. The results and the state are
     those of the order's plan, cut after `steps` durable actions.
     */
    method IntegrateInOrder(o: Order, refs: seq<string>, stamps: seq<Stamp>, steps: nat, ghost w: World)
      returns (r: Result<seq<Outcome>, ServiceError>)
      requires Wired() && store.Synced() && Shows(w)
      requires |stamps| == |refs| && FreshFor(stamps, store.integrations)
      requires queue != null ==> forall i :: 0 <= i < |stamps| ==> stamps[i].id !in queue.claims
      modifies store`log, store`integrations, this`claims, queue, adapter
      ensures AppendsIntegration(old(store.log), store.log)
      ensures Wired() && store.Synced()
      ensures var run := Run(PlanOf(o), w, refs, 0, stamps, steps);
              && Shows(run.0)
              && r == match run.2
                      case Finished => Ok(run.1)
                      case Interrupted => Err(Stopped)
                      case InvalidReference => Err(BadReference)
    {
      var results: seq<Outcome> := [];
      var left := steps;
      ghost var v := w;
      RestStart(PlanOf(o), w, refs, stamps, steps);
      RunAppends(PlanOf(o), w, refs, 0, stamps, steps);
      for i := 0 to |refs|
        invariant Wired() && store.Synced() && Shows(v)
        invariant FreshFor(stamps[i..], store.integrations)
        invariant queue != null ==> forall j :: i <= j < |stamps| ==> stamps[j].id !in queue.claims
        invariant Rest(PlanOf(o), w, refs, stamps, steps, i, v, left, results)
      {
        ReplayedIdsOk(store.log);
        PlannedItem(o, v, refs[i], i, stamps[i]);
        RestStep(PlanOf(o), w, refs, stamps, steps, i, v, left, results, Item(o, v, refs[i], i, stamps[i]));
        TailStamps(stamps, i, v.integrations);
        var end, after := IntegrateOne(o, refs[i], i, stamps[i], left, v);
        if end.BadRef? { return Err(BadReference); }
        if end.CutShort? { return Err(Stopped); }
        results := results + [end.report];
        if !end.goesOn { return Ok(results); }
        left := after;
        StepStamps(o, v, refs[i], i, stamps[i..]);
        v := DoAll(v, Item(o, v, refs[i], i, stamps[i]).actions);
      }
      RestDone(PlanOf(o), w, refs, stamps, steps, v, left, results);
      return Ok(results);
    }
  }

  /** Two actions and what follows them, cut anywhere. */
  lemma TwoThen(w: World, a: Action, b: Action, tail: seq<Action>, steps: nat)
    ensures var actions := [a] + ([b] + tail);
            && |actions| == |tail| + 2
            && DoAll(w, actions) == DoAll(Do(Do(w, a), b), tail)
            && (steps < |actions| ==>
                  DoAll(w, actions[..steps])
                  == if steps == 0 then w else if steps == 1 then Do(w, a)
                      else DoAll(Do(Do(w, a), b), tail[..steps - 2]))
  {
    DoPair(w, a, b, tail);
    if 0 < steps < |tail| + 2 {
      DoCons(w, a, [b] + tail, steps - 1);
      if steps > 1 { DoCons(Do(w, a), b, tail, steps - 2); }
    }
  }

  /** The states between the last actions of an item. */
  lemma EndingStages(w: World, ref: string, end: End)
    ensures var actions := Ending(ref, end);
            && |actions| == (if end.ran then 2 else 1)
            && DoAll(w, actions[..0]) == w
            && (end.ran ==> DoAll(w, actions[..1]) == Do(w, Ran(ref, end.replaced)))
            && DoAll(w, actions) == Ended(w, ref, end)
  {
    DoEnding(w, ref, end);
    if end.ran {
      assert Ending(ref, end)[..1] == [Ran(ref, end.replaced)];
      DoOne(w, Ran(ref, end.replaced));
    }
  }

  lemma PutIdsOk(d: Dict<IntegrationAttempt>, a: IntegrationAttempt)
    requires IdsOk(d)
    ensures IdsOk(d.Put(a.id, a))
  {
    PutValid(d, a.id, a);
  }

  /** The call so far, and what is left of it. */
  ghost predicate Rest(plan: Plan, w: World, refs: seq<string>, stamps: seq<Stamp>, steps: nat, i: nat, v: World,
                       left: nat, results: seq<Outcome>)
  {
    && i <= |refs| == |stamps|
    && var rest := Run(plan, v, refs[i..], i, stamps[i..], left);
       Run(plan, w, refs, 0, stamps, steps) == (rest.0, results + rest.1, rest.2)
  }

  lemma RestStart(plan: Plan, w: World, refs: seq<string>, stamps: seq<Stamp>, steps: nat)
    requires |refs| == |stamps|
    ensures Rest(plan, w, refs, stamps, steps, 0, w, steps, [])
  {
    assert refs[0..] == refs && stamps[0..] == stamps;
    var run := Run(plan, w, refs, 0, stamps, steps);
    TakeAll(run.1);
  }

  lemma RestDone(plan: Plan, w: World, refs: seq<string>, stamps: seq<Stamp>, steps: nat, v: World, left: nat,
                 results: seq<Outcome>)
    requires Rest(plan, w, refs, stamps, steps, |refs|, v, left, results)
    ensures Run(plan, w, refs, 0, stamps, steps) == (v, results, Finished)
  {
    TakeAll(results);
  }

  lemma RestStep(plan: Plan, w: World, refs: seq<string>, stamps: seq<Stamp>, steps: nat, i: nat, v: World, left: nat,
                 results: seq<Outcome>, s: Step)
    requires Rest(plan, w, refs, stamps, steps, i, v, left, results) && i < |refs|
    requires s == plan(v, refs[i], i, stamps[i])
    ensures var run := Run(plan, w, refs, 0, stamps, steps);
            if s.InvalidRef? then run.0 == v && run.2.InvalidReference?
            else if left < |s.actions| then run.0 == DoAll(v, s.actions[..left]) && run.2.Interrupted?
            else if !s.goesOn then run == (DoAll(v, s.actions), results + [s.report], Finished)
            else
              Rest(plan, w, refs, stamps, steps, i + 1, DoAll(v, s.actions), left - |s.actions|, results + [s.report])
  {
    TailHead(refs, i);
    TailHead(stamps, i);
    if s.Step? && left >= |s.actions| && s.goesOn {
      var more := Run(plan, DoAll(v, s.actions), refs[i + 1..], i + 1, stamps[i + 1..], left - |s.actions|).1;
      Associative(results, [s.report], more);
    }
  }

  lemma PlannedItem(o: Order, w: World, ref: string, index: int, f: Stamp)
    ensures PlanOf(o)(w, ref, index, f) == Item(o, w, ref, index, f)
  {}

  lemma TailStamps(stamps: seq<Stamp>, i: nat, d: Dict<IntegrationAttempt>)
    requires i < |stamps| && FreshFor(stamps[i..], d)
    ensures stamps[i].id !in d.vals && forall j :: i < j < |stamps| ==> stamps[j].id != stamps[i].id
  {
    assert stamps[i..][0] == stamps[i];
    forall j | i < j < |stamps| ensures stamps[j].id != stamps[i].id {
      assert stamps[i..][j - i] == stamps[j];
    }
  }

  lemma StepStamps(o: Order, w: World, ref: string, index: int, stamps: seq<Stamp>)
    requires stamps != [] && FreshFor(stamps, w.integrations) && Item(o, w, ref, index, stamps[0]).Step?
    ensures FreshFor(stamps[1..], DoAll(w, Item(o, w, ref, index, stamps[0]).actions).integrations)
  {
    AddedIds(w, Item(o, w, ref, index, stamps[0]).actions, stamps[0].id);
    assert forall i :: 0 <= i < |stamps[1..]| ==> stamps[1..][i] == stamps[i + 1];
  }
}

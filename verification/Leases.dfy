/** Writer leases: the lease manager over the store, and disjointness of active leases over whole runs. */
module Leases {
  import opened Prelude
  import opened Domain
  import opened Regions
  import opened Projection
  import opened AttemptHistory
  import opened Store

  datatype LeaseError = LeaseOverlap | NotFound | NotActive | CommitRefused

  /** No two distinct active leases overlap. */
  ghost predicate Disjoint(d: Dict<WriterLease>) {
    forall i, j :: i in d.vals && j in d.vals && i != j && d.vals[i].status.Active? && d.vals[j].status.Active? ==>
      !Overlaps(d.vals[i].region, d.vals[j].region)
  }

  ghost predicate LeasesOk(d: Dict<WriterLease>) {
    d.Valid() && (forall id :: id in d.vals ==> d.vals[id].id == id) && Disjoint(d)
  }

  predicate Taken(d: Dict<WriterLease>, region: Region) {
    exists id :: id in d.vals.Keys && d.vals[id].status.Active? && Overlaps(d.vals[id].region, region)
  }

  function ReleasedFrom(l: WriterLease): WriterLease {
    l.(status := Released, version := l.version + 1)
  }

  predicate Due(l: WriterLease, at: int) {
    l.status.Active? && l.expiresAt.Some? && l.expiresAt.value <= at
  }

  function ExpiredFrom(l: WriterLease): WriterLease {
    l.(status := Expired, version := l.version + 1)
  }

  function AfterExpiry(l: WriterLease, at: int): WriterLease {
    if Due(l, at) then ExpiredFrom(l) else l
  }

  /** The leases an expiry sweep ends, in dictionary order. */
  function ExpiredIn(keys: seq<string>, vals: map<string, WriterLease>, at: int): seq<WriterLease> {
    if keys == [] then []
    else
      var k := keys[|keys| - 1];
      ExpiredIn(keys[..|keys| - 1], vals, at) + if k in vals && Due(vals[k], at) then [ExpiredFrom(vals[k])] else []
  }

  function Expirations(expired: seq<WriterLease>): (es: seq<Event>)
    ensures |es| == |expired| && forall i :: 0 <= i < |es| ==> es[i] == LeaseRecorded(LeaseExpired, expired[i])
  {
    seq(|expired|, i requires 0 <= i < |expired| => LeaseRecorded(LeaseExpired, expired[i]))
  }

  /**
     A lease is due from its expiry on and while it is active; a sweep ends what is due, under the next
     version, changes nothing else, and leaves nothing due.
   */
  lemma SweepExactly(l: WriterLease, at: int)
    ensures Due(l, at) <==> l.status.Active? && l.expiresAt.Some? && at >= l.expiresAt.value
    ensures var after := AfterExpiry(l, at);
            && !Due(after, at)
            && (!Due(l, at) ==> after == l)
            && (Due(l, at) ==>
                  && after.status.Expired? && after.version == l.version + 1
                  && after.(status := l.status, version := l.version) == l)
  {}

  /** A granted lease is due exactly once its time to live is over. */
  lemma GrantedUntil(id: string, child: string, owner: string, region: Region, at: int, ttl: int, later: int)
    ensures Due(WriterLease(id, 1, child, owner, region, Active, at, Some(at + ttl)), later) <==> later - at >= ttl
  {}

  /** A release ends a lease under the next version and changes nothing else; what has ended is never due. */
  lemma ReleasedExactly(l: WriterLease, at: int)
    ensures var r := ReleasedFrom(l);
            && r.status.Released? && r.version == l.version + 1 && !Due(r, at)
            && r.(status := l.status, version := l.version) == l
  {}

  /** A region is taken while an active lease overlaps it, and by nothing else. */
  lemma TakenIff(d: Dict<WriterLease>, region: Region)
    requires d.Valid()
    ensures Taken(d, region) <==>
              exists i :: 0 <= i < |d.keys| && d.vals[d.keys[i]].status.Active?
                          && Overlaps(d.vals[d.keys[i]].region, region)
  {
    if Taken(d, region) {
      var id :| id in d.vals.Keys && d.vals[id].status.Active? && Overlaps(d.vals[id].region, region);
      var i :| 0 <= i < |d.keys| && d.keys[i] == id;
    }
  }

  // ---------- What the manager may write ----------

  predicate LeaseEventOk(s: State, e: Event) {
    match e
    case LeaseRecorded(kind, l) =>
      if kind.LeaseAcquired? then !Taken(s.leases, l.region)
      else
        && l.id in s.leases.vals
        && var was := s.leases.vals[l.id];
           was.status.Active? && if kind.LeaseExpired? then l == ExpiredFrom(was)
                                 else l == was.(expiresAt := l.expiresAt, version := was.version + 1)
    case LeaseReleased(id) => id in s.leases.vals && s.leases.vals[id].status.Active?
    case _ => true
  }

  predicate LeaseLog(log: seq<Event>) {
    log == [] || (
      && LeaseLog(log[..|log| - 1])
      && Replay(log[..|log| - 1]).Some?
      && LeaseEventOk(Replay(log[..|log| - 1]).value, log[|log| - 1]))
  }

  lemma PutKeepsDisjoint(d: Dict<WriterLease>, l: WriterLease)
    requires LeasesOk(d)
    requires l.status.Active? ==>
               !Taken(d, l.region) || (l.id in d.vals && d.vals[l.id].status.Active? && l.region == d.vals[l.id].region)
    ensures LeasesOk(d.Put(l.id, l))
  {
    PutValid(d, l.id, l);
    var e := d.Put(l.id, l);
    forall i, j | i in e.vals && j in e.vals && i != j && e.vals[i].status.Active? && e.vals[j].status.Active?
      ensures !Overlaps(e.vals[i].region, e.vals[j].region)
    {
      OverlapSymmetric(e.vals[i].region, e.vals[j].region);
    }
  }

  /** At every point of a run of the lease manager, a restart finds pairwise disjoint active leases. */
  lemma {:induction false} LeasesStayDisjoint(log: seq<Event>)
    requires LeaseLog(log)
    ensures Replay(log).Some? && LeasesOk(Replay(log).value.leases)
  {
    if log != [] {
      var s, e := Replay(log[..|log| - 1]).value, log[|log| - 1];
      LeasesStayDisjoint(log[..|log| - 1]);
      match e {
        case LeaseRecorded(_, l) => PutKeepsDisjoint(s.leases, l);
        case LeaseReleased(id) => PutKeepsDisjoint(s.leases, ReleasedFrom(s.leases.vals[id]));
        case _ =>
      }
    }
  }

  lemma LeaseLogSnoc(log: seq<Event>, e: Event)
    requires LeaseLog(log) && Replay(log).Some? && LeaseEventOk(Replay(log).value, e)
    ensures LeaseLog(log + [e])
  {
    assert (log + [e])[..|log|] == log;
  }

  /** What a lease event leaves in the dictionary. */
  predicate Writes(d: Dict<WriterLease>, e: Event, l: WriterLease) {
    match e
    case LeaseRecorded(_, m) => l == m
    case LeaseReleased(id) => id in d.vals && d.vals[id].id == id && l == ReleasedFrom(d.vals[id])
    case _ => false
  }

  /** The shape every lease operation shares: the dictionary first, then the commit. */
  lemma LeaseApplied(log: seq<Event>, s: State, e: Event, l: WriterLease)
    requires LeaseLog(log) && Replay(log) == Some(s) && LeaseEventOk(s, e)
    requires Writes(s.leases, e, l)
    ensures LeaseLog(log + [e]) && Replay(log + [e]) == Some(s.(leases := s.leases.Put(l.id, l)))
  {
    LeaseLogSnoc(log, e);
    ReplaySnoc(log, e);
  }

  class LeaseManager {
    const store: Store

    constructor (store: Store)
      ensures this.store == store
    {
      this.store := store;
    }

    ghost predicate Sound()
      reads store
    {
      LeaseLog(store.log) && store.Synced()
    }

    method Acquire(id: string, child: string, owner: string, region: Region, at: int, ttl: int, stored: bool)
      returns (r: Result<WriterLease, LeaseError>)
      requires LeasesOk(store.leases) && id !in store.leases.vals
      modifies store`log, store`leases
      ensures LeasesOk(store.leases)
      ensures old(Sound()) ==> LeaseLog(store.log) && (store.Synced() <==> r != Err(CommitRefused))
      ensures var lease := WriterLease(id, 1, child, owner, region, Active, at, Some(at + ttl));
              if Taken(old(store.leases), region)
              then r == Err(LeaseOverlap) && store.leases == old(store.leases) && store.log == old(store.log)
              else
                && store.leases == old(store.leases).Put(id, lease)
                && store.log
                     == (if stored then old(store.log) + [LeaseRecorded(LeaseAcquired, lease)] else old(store.log))
                && r == if stored then Ok(lease) else Err(CommitRefused)
    {
      var taken := FindTaken(region);
      if taken { return Err(LeaseOverlap); }
      var lease := WriterLease(id, 1, child, owner, region, Active, at, Some(at + ttl));
      ShowThenCommit(lease, LeaseRecorded(LeaseAcquired, lease), stored);
      return if stored then Ok(lease) else Err(CommitRefused);
    }

    /** The application service's own entry: the same check, on a lease its caller has built. */
    method AcquireLease(lease: WriterLease, stored: bool) returns (r: Result<WriterLease, LeaseError>)
      requires LeasesOk(store.leases)
      modifies store`log, store`leases
      ensures LeasesOk(store.leases)
      ensures old(Sound()) ==>
                LeaseLog(store.log)
                    && (store.Synced() <==> r != Err(CommitRefused) || store.leases == old(store.leases))
      ensures if Taken(old(store.leases), lease.region)
              then r == Err(LeaseOverlap) && store.leases == old(store.leases) && store.log == old(store.log)
              else
                && store.leases == old(store.leases).Put(lease.id, lease)
                && store.log
                     == (if stored then old(store.log) + [LeaseRecorded(LeaseAcquired, lease)] else old(store.log))
                && r == if stored then Ok(lease) else Err(CommitRefused)
    {
      var taken := FindTaken(lease.region);
      if taken { return Err(LeaseOverlap); }
      ShowThenCommit(lease, LeaseRecorded(LeaseAcquired, lease), stored);
      return if stored then Ok(lease) else Err(CommitRefused);
    }

    /** Whether an active lease overlaps the region. */
    method FindTaken(region: Region) returns (taken: bool)
      requires LeasesOk(store.leases)
      ensures taken <==> Taken(store.leases, region)
    {
      for i := 0 to |store.leases.keys|
        invariant forall j :: 0 <= j < i ==>
          var k := store.leases.keys[j];
          !(store.leases.vals[k].status.Active? && Overlaps(store.leases.vals[k].region, region))
      {
        var current := store.leases.vals[store.leases.keys[i]];
        if current.status.Active? && Overlaps(current.region, region) {
          assert Taken(store.leases, region);
          return true;
        }
      }
      NotTaken(store.leases, region);
      return false;
    }

    method Release(id: string, stored: bool) returns (r: Result<WriterLease, LeaseError>)
      requires LeasesOk(store.leases)
      modifies store`log, store`leases
      ensures LeasesOk(store.leases)
      ensures old(Sound()) ==> LeaseLog(store.log) && (store.Synced() <==> r != Err(CommitRefused))
      ensures if id !in old(store.leases).vals || !old(store.leases).vals[id].status.Active?
              then r == Err(if id in old(store.leases).vals then NotActive else NotFound)
                   && store.leases == old(store.leases) && store.log == old(store.log)
              else
                && var released := ReleasedFrom(old(store.leases).vals[id]);
                && store.leases == old(store.leases).Put(id, released)
                && store.log == (if stored then old(store.log) + [LeaseReleased(id)] else old(store.log))
                && r == if stored then Ok(released) else Err(CommitRefused)
    {
      if id !in store.leases.vals { return Err(NotFound); }
      var lease := store.leases.vals[id];
      if !lease.status.Active? { return Err(NotActive); }
      var released := ReleasedFrom(lease);
      ShowThenCommit(released, LeaseReleased(id), stored);
      return if stored then Ok(released) else Err(CommitRefused);
    }

    method Heartbeat(id: string, at: int, ttl: int, stored: bool) returns (r: Result<WriterLease, LeaseError>)
      requires LeasesOk(store.leases)
      modifies store`log, store`leases
      ensures LeasesOk(store.leases)
      ensures old(Sound()) ==> LeaseLog(store.log) && (store.Synced() <==> r != Err(CommitRefused))
      ensures if id !in old(store.leases).vals || !old(store.leases).vals[id].status.Active?
              then r == Err(if id in old(store.leases).vals then NotActive else NotFound)
                   && store.leases == old(store.leases) && store.log == old(store.log)
              else
                && var lease := old(store.leases).vals[id];
                && var renewed := lease.(expiresAt := Some(at + ttl), version := lease.version + 1);
                && store.leases == old(store.leases).Put(id, renewed)
                && store.log
                     == (if stored then old(store.log) + [LeaseRecorded(LeaseHeartbeat, renewed)] else old(store.log))
                && r == if stored then Ok(renewed) else Err(CommitRefused)
    {
      if id !in store.leases.vals { return Err(NotFound); }
      var lease := store.leases.vals[id];
      if !lease.status.Active? { return Err(NotActive); }
      var renewed := lease.(expiresAt := Some(at + ttl), version := lease.version + 1);
      ShowThenCommit(renewed, LeaseRecorded(LeaseHeartbeat, renewed), stored);
      return if stored then Ok(renewed) else Err(CommitRefused);
    }

    /** Expires every due lease, one commit each; the first refused commit ends the sweep. */
    method Expire(at: int, quota: nat) returns (r: Result<seq<WriterLease>, LeaseError>)
      requires LeasesOk(store.leases)
      modifies store`log, store`leases
      ensures LeasesOk(store.leases)
      ensures old(Sound()) ==> LeaseLog(store.log) && (store.Synced() <==> r.Ok?)
      ensures var due := ExpiredIn(old(store.leases).keys, old(store.leases).vals, at);
              && (r.Ok? <==> |due| <= quota)
              && store.log == old(store.log) + Expirations(if |due| <= quota then due else due[..quota])
      ensures r.Err? ==> r == Err(CommitRefused)
      ensures r.Ok? ==>
                && r.value == ExpiredIn(old(store.leases).keys, old(store.leases).vals, at)
                && store.leases.keys == old(store.leases).keys && store.leases.vals.Keys == old(store.leases).vals.Keys
                && forall id :: id in store.leases.vals ==>
                     store.leases.vals[id] == AfterExpiry(old(store.leases).vals[id], at)
    {
      ghost var before := store.leases;
      var keys := store.leases.keys;
      ghost var log := store.log;
      var expired := [];
      for i := 0 to |keys|
        invariant LeasesOk(store.leases) && store.leases.keys == keys == before.keys && before.Valid()
        invariant old(Sound()) ==> Sound()
        invariant HalfExpired(before, store.leases.vals, i, at)
        invariant expired == ExpiredIn(keys[..i], before.vals, at) && |expired| <= quota
        invariant store.log == log + Expirations(expired)
      {
        ExpiredStep(before, store.leases.vals, i, at);
        ExpiredSnoc(keys, before.vals, at, i);
        var lease := store.leases.vals[keys[i]];
        if Due(lease, at) {
          var stored := |expired| < quota;
          ExpireOne(lease, at, stored);
          ExpirationsSnoc(log, expired, ExpiredFrom(lease));
          expired := expired + [ExpiredFrom(lease)];
          if !stored {
            ExpiredCut(keys, before.vals, at, i);
            return Err(CommitRefused);
          }
        }
      }
      AllExpired(before, store.leases.vals, at);
      assert keys[..|keys|] == keys;
      return Ok(expired);
    }

    method ExpireOne(lease: WriterLease, at: int, stored: bool)
      requires LeasesOk(store.leases) && lease.id in store.leases.vals && store.leases.vals[lease.id] == lease
                 && Due(lease, at)
      modifies store`log, store`leases
      ensures LeasesOk(store.leases) && store.leases.keys == old(store.leases).keys
      ensures store.leases.vals == old(store.leases).vals[lease.id := AfterExpiry(lease, at)]
      ensures store.log == if stored then old(store.log) + Expirations([ExpiredFrom(lease)]) else old(store.log)
      ensures old(Sound()) ==> LeaseLog(store.log) && (store.Synced() <==> stored)
    {
      ShowThenCommit(ExpiredFrom(lease), LeaseRecorded(LeaseExpired, ExpiredFrom(lease)), stored);
      assert Expirations([ExpiredFrom(lease)]) == [LeaseRecorded(LeaseExpired, ExpiredFrom(lease))];
    }

    method ShowThenCommit(l: WriterLease, e: Event, stored: bool)
      requires LeasesOk(store.leases) && LeaseEventOk(store.Live(), e)
      requires Writes(store.leases, e, l)
      modifies store`log, store`leases
      ensures LeasesOk(store.leases) && store.leases == old(store.leases).Put(l.id, l)
      ensures store.log == if stored then old(store.log) + [e] else old(store.log)
      ensures old(Sound()) ==> LeaseLog(store.log) && (store.Synced() <==> stored || store.leases == old(store.leases))
    {
      PutKeepsDisjoint(store.leases, l);
      if Sound() { LeaseApplied(store.log, store.Live(), e, l); }
      store.leases := store.leases.Put(l.id, l);
      store.Commit(e, stored);
    }
  }

  lemma NotTaken(d: Dict<WriterLease>, region: Region)
    requires d.Valid()
    requires forall j :: 0 <= j < |d.keys| ==>
      var k := d.keys[j]; !(d.vals[k].status.Active? && Overlaps(d.vals[k].region, region))
    ensures !Taken(d, region)
  {
    forall id | id in d.vals ensures !(d.vals[id].status.Active? && Overlaps(d.vals[id].region, region)) {
      var j :| 0 <= j < |d.keys| && d.keys[j] == id;
    }
  }

  lemma ExpirationsSnoc(log: seq<Event>, expired: seq<WriterLease>, l: WriterLease)
    ensures log + Expirations(expired + [l]) == log + Expirations(expired) + Expirations([l])
  {}

  ghost predicate HalfExpired(before: Dict<WriterLease>, vals: map<string, WriterLease>, i: nat, at: int) {
    HalfMapped(before, vals, i, (l: WriterLease) => AfterExpiry(l, at))
  }

  lemma ExpiredStep(before: Dict<WriterLease>, vals: map<string, WriterLease>, i: nat, at: int)
    requires before.Valid() && i < |before.keys| && HalfExpired(before, vals, i, at)
    ensures before.keys[i] in vals && before.keys[i] in before.vals
              && vals[before.keys[i]] == before.vals[before.keys[i]]
    ensures HalfExpired(before, vals[before.keys[i] := AfterExpiry(before.vals[before.keys[i]], at)], i + 1, at)
    ensures !Due(before.vals[before.keys[i]], at) ==> HalfExpired(before, vals, i + 1, at)
  {
    HalfMappedStep(before, vals, i, (l: WriterLease) => AfterExpiry(l, at));
  }

  lemma AllExpired(before: Dict<WriterLease>, vals: map<string, WriterLease>, at: int)
    requires before.Valid() && HalfExpired(before, vals, |before.keys|, at)
    ensures vals.Keys == before.vals.Keys && forall id :: id in vals ==> vals[id] == AfterExpiry(before.vals[id], at)
  {
    AllMapped(before, vals, (l: WriterLease) => AfterExpiry(l, at));
  }

  lemma ExpiredCut(keys: seq<string>, vals: map<string, WriterLease>, at: int, i: nat)
    requires i < |keys| && keys[i] in vals && Due(vals[keys[i]], at)
    ensures var done, all := ExpiredIn(keys[..i], vals, at), ExpiredIn(keys, vals, at);
            |all| > |done| && all[..|done|] == done
  {
    ExpiredSnoc(keys, vals, at, i);
    ExpiredGrows(keys, vals, at, i + 1);
    ExpiredGrows(keys, vals, at, i);
  }

  lemma ExpiredSnoc(keys: seq<string>, vals: map<string, WriterLease>, at: int, i: nat)
    requires i < |keys|
    ensures ExpiredIn(keys[..i + 1], vals, at)
         == ExpiredIn(keys[..i], vals, at)
            + if keys[i] in vals && Due(vals[keys[i]], at) then [ExpiredFrom(vals[keys[i]])] else []
  {
    assert keys[..i + 1][..i] == keys[..i];
  }

  lemma {:induction false} ExpiredGrows(keys: seq<string>, vals: map<string, WriterLease>, at: int, i: nat)
    requires i <= |keys|
    ensures ExpiredIn(keys[..i], vals, at) <= ExpiredIn(keys, vals, at)
    decreases |keys| - i
  {
    if i < |keys| {
      ExpiredSnoc(keys, vals, at, i);
      ExpiredGrows(keys, vals, at, i + 1);
    } else {
      assert keys[..i] == keys;
    }
  }

  // ---------- One journal ----------

  /** The lease manager and the worker services share a journal without disturbing each other's history. */
  lemma OneJournal(log: seq<Event>, e: Event)
    requires SafeLog(log) && LeaseLog(log) && CapacityLog(log) && Replay(log).Some?
    requires if e.WorkerEvent? then EventOk(Replay(log).value, e) && Admitted(Replay(log).value, e)
             else (e.LeaseRecorded? || e.LeaseReleased?) && LeaseEventOk(Replay(log).value, e)
    ensures SafeLog(log + [e]) && LeaseLog(log + [e]) && CapacityLog(log + [e])
  {
    SafeLogSnoc(log, e);
    LeaseLogSnoc(log, e);
    assert (log + [e])[..|log|] == log;
  }

  // ---------- When a commit is refused and the process goes on ----------

  /**
     A refused release leaves the lease free in memory and held in the journal. The next acquire the
     manager accepts is harmless exactly when its region misses the lease that was to be released.
   */
  lemma AcquireAfterRefusedRelease(s: State, id: string, l: WriterLease)
    requires LeasesOk(s.leases) && id in s.leases.vals && s.leases.vals[id].status.Active?
    requires l.id !in s.leases.vals && l.status.Active?
    requires !Taken(s.leases.Put(id, ReleasedFrom(s.leases.vals[id])), l.region)
    ensures Apply(s, LeaseRecorded(LeaseAcquired, l)).Some?
    ensures Disjoint(Apply(s, LeaseRecorded(LeaseAcquired, l)).value.leases) <==>
              !Overlaps(s.leases.vals[id].region, l.region)
  {
    var freed := s.leases.Put(id, ReleasedFrom(s.leases.vals[id]));
    var d := s.leases.Put(l.id, l);
    if Overlaps(s.leases.vals[id].region, l.region) {
      assert id in d.vals && l.id in d.vals;
    } else {
      forall k | k in s.leases.vals.Keys && s.leases.vals[k].status.Active?
        ensures !Overlaps(s.leases.vals[k].region, l.region)
      {
        if k != id { assert k in freed.vals.Keys && freed.vals[k] == s.leases.vals[k]; }
      }
      PutKeepsDisjoint(s.leases, l);
    }
  }

  /**
     A lease whose acquisition was refused is live only in memory: releasing it writes a journal that
     cannot be replayed.
   */
  lemma ReleaseAfterRefusedAcquire(log: seq<Event>, id: string)
    requires Replay(log).Some?
    ensures Replay(log + [LeaseReleased(id)]).None? <==> id !in Replay(log).value.leases.vals
  {
    ReplaySnoc(log, LeaseReleased(id));
  }
}

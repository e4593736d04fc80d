/** Child-task write boundaries, their owners, and the event log both are rebuilt from. */
module Ownership {
  import opened Prelude
  import opened Regions

  datatype Boundary = Boundary(id: string, parentTaskId: string, objective: string, writeRegions: seq<Region>,
                               version: int)

  datatype AssignmentStatus = ActiveOwner | FormerOwner

  datatype Assignment = Assignment(
    childTaskId: string, ownerAgentId: string, writeRegions: seq<Region>, version: int,
    status: AssignmentStatus, assignedAt: int, releasedAt: Option<int>)

  datatype OwnershipEvent =
    | BoundaryRegistered(boundary: Boundary)
    | OwnerAssigned(assignment: Assignment)
    | OwnerReleased(assignment: Assignment)
    | OwnerTransferred(assignment: Assignment)
    | Unrelated

  datatype OwnershipError =
    | BoundaryConflict | OwnerConflict | NoRegions | ScopeViolation | OwnerMismatch | TransferRequiresRelease
    | BoundaryNotFound | OwnerNotAssigned | EventConflict | InvalidEvent | AppendRefused

  datatype Registry = Registry(boundaries: map<string, Boundary>, assignments: map<string, Assignment>)

  predicate Inside(region: Region, allowed: seq<Region>) {
    exists i :: 0 <= i < |allowed| && Covers(allowed[i], region)
  }

  /** Being inside is being covered by one region of the list; more regions never take anything out. */
  lemma InsideIff(region: Region, one: Region, allowed: seq<Region>, more: seq<Region>)
    ensures !Inside(region, [])
    ensures Inside(region, [one]) <==> Covers(one, region)
    ensures Inside(region, allowed + more) <==> Inside(region, allowed) || Inside(region, more)
  {
    assert [one][0] == one;
    if i :| 0 <= i < |allowed| && Covers(allowed[i], region) { assert (allowed + more)[i] == allowed[i]; }
    if i :| 0 <= i < |more| && Covers(more[i], region) { assert (allowed + more)[|allowed| + i] == more[i]; }
  }

  predicate AllInside(regions: seq<Region>, allowed: seq<Region>) {
    forall i :: 0 <= i < |regions| ==> Inside(regions[i], allowed)
  }

  predicate HasActiveOwner(r: Registry, child: string) {
    child in r.assignments && r.assignments[child].status.ActiveOwner?
  }

  // ---------- Rebuilding ----------

  /** The lifecycle check every assignment record passes when it is read. */
  predicate WellFormed(a: Assignment) {
    && a.writeRegions != [] && a.version >= 1
    && (a.status.ActiveOwner? <==> a.releasedAt.None?)
  }

  /** A record is ill-formed without regions, below version one, or when its release time and status disagree. */
  lemma IllFormed(a: Assignment)
    ensures !WellFormed(a) <==>
              || |a.writeRegions| == 0 || a.version < 1
              || (a.status.ActiveOwner? && a.releasedAt.Some?) || (a.status.FormerOwner? && a.releasedAt.None?)
  {}

  function RebuildStep(r: Registry, e: OwnershipEvent): Result<Registry, OwnershipError> {
    match e
    case Unrelated => Ok(r)
    case BoundaryRegistered(b) =>
      if b.id in r.boundaries then Err(EventConflict) else Ok(r.(boundaries := r.boundaries[b.id := b]))
    case OwnerReleased(a) =>
      if !WellFormed(a) then Err(InvalidEvent)
      else if a.childTaskId !in r.boundaries then Err(BoundaryNotFound)
      else if !a.status.FormerOwner? then Err(InvalidEvent)
      else if !HasActiveOwner(r, a.childTaskId) || r.assignments[a.childTaskId].ownerAgentId != a.ownerAgentId
      then Err(EventConflict)
      else Ok(r.(assignments := r.assignments[a.childTaskId := a]))
    case _ =>
      var a := e.assignment;
      if !WellFormed(a) then Err(InvalidEvent)
      else if a.childTaskId !in r.boundaries then Err(BoundaryNotFound)
      else if !a.status.ActiveOwner? then Err(InvalidEvent)
      else if HasActiveOwner(r, a.childTaskId) then Err(EventConflict)
      else Ok(r.(assignments := r.assignments[a.childTaskId := a]))
  }

  function Rebuild(log: seq<OwnershipEvent>): Result<Registry, OwnershipError> {
    if log == [] then Ok(Registry(map[], map[]))
    else
      match Rebuild(log[..|log| - 1])
      case Err(e) => Err(e)
      case Ok(r) => RebuildStep(r, log[|log| - 1])
  }

  lemma RebuildSnoc(log: seq<OwnershipEvent>, e: OwnershipEvent)
    requires Rebuild(log).Ok?
    ensures Rebuild(log + [e]) == RebuildStep(Rebuild(log).value, e)
  {
    assert (log + [e])[..|log|] == log;
  }

  lemma {:induction false} RebuildPrefix(log: seq<OwnershipEvent>, i: nat)
    requires i <= |log|
    ensures Rebuild(log).Ok? ==> Rebuild(log[..i]).Ok?
    ensures Rebuild(log[..i]).Err? ==> Rebuild(log) == Rebuild(log[..i])
  {
    if i < |log| {
      assert log[..|log| - 1][..i] == log[..i];
      RebuildPrefix(log[..|log| - 1], i);
    } else {
      assert log[..i] == log;
    }
  }

  // ---------- What the service accepts ----------

  /** The events the service writes from a registry: exactly one owner at a time, inside the boundary. */
  ghost predicate Accepted(r: Registry, e: OwnershipEvent) {
    match e
    case Unrelated => true
    case BoundaryRegistered(b) => b.id !in r.boundaries
    case OwnerReleased(a) =>
      && HasActiveOwner(r, a.childTaskId) && a.releasedAt.Some?
      && var was := r.assignments[a.childTaskId];
         a == was.(status := FormerOwner, releasedAt := a.releasedAt, version := was.version + 1)
    case _ =>
      var a := e.assignment;
      && a.childTaskId in r.boundaries && !HasActiveOwner(r, a.childTaskId)
      && a.status.ActiveOwner? && a.version == 1 && a.releasedAt.None?
      && a.writeRegions != [] && AllInside(a.writeRegions, r.boundaries[a.childTaskId].writeRegions)
  }

  ghost predicate History(log: seq<OwnershipEvent>) {
    log == [] || (
      && History(log[..|log| - 1])
      && Rebuild(log[..|log| - 1]).Ok?
      && Accepted(Rebuild(log[..|log| - 1]).value, log[|log| - 1]))
  }

  /** Every assignment, past or present, belongs to a registered boundary and lies inside it. */
  ghost predicate Bounded(r: Registry) {
    && (forall id :: id in r.boundaries ==> r.boundaries[id].id == id)
    && (forall c :: c in r.assignments ==>
          && c in r.boundaries && r.assignments[c].childTaskId == c && WellFormed(r.assignments[c])
          && AllInside(r.assignments[c].writeRegions, r.boundaries[c].writeRegions))
  }

  lemma AcceptedRebuilds(r: Registry, e: OwnershipEvent)
    requires Bounded(r) && Accepted(r, e)
    ensures RebuildStep(r, e).Ok? && Bounded(RebuildStep(r, e).value)
  {}

  /** Every history the service accepts is rebuilt without an error, and every owner in it is inside the boundary. */
  lemma {:induction false} HistoryRebuilds(log: seq<OwnershipEvent>)
    requires History(log)
    ensures Rebuild(log).Ok? && Bounded(Rebuild(log).value)
  {
    if log != [] {
      HistoryRebuilds(log[..|log| - 1]);
      AcceptedRebuilds(Rebuild(log[..|log| - 1]).value, log[|log| - 1]);
    }
  }

  predicate Binds(e: OwnershipEvent, child: string) {
    (e.OwnerAssigned? || e.OwnerTransferred?) && e.assignment.childTaskId == child
  }

  predicate Frees(e: OwnershipEvent, child: string) {
    e.OwnerReleased? && e.assignment.childTaskId == child
  }

  /** A binding event finds its child without an owner and leaves it with one. */
  lemma BindsOne(log: seq<OwnershipEvent>, i: nat, child: string)
    requires Rebuild(log).Ok? && i < |log| && Binds(log[i], child)
    ensures Rebuild(log[..i]).Ok? && !HasActiveOwner(Rebuild(log[..i]).value, child)
    ensures Rebuild(log[..i + 1]).Ok? && HasActiveOwner(Rebuild(log[..i + 1]).value, child)
  {
    RebuildPrefix(log, i);
    RebuildPrefix(log, i + 1);
    RebuildSnoc(log[..i], log[i]);
    assert log[..i + 1] == log[..i] + [log[i]];
  }

  /** In any log that rebuilds, two owners of one child are separated by a release. */
  lemma OwnersSeparated(log: seq<OwnershipEvent>, i: nat, j: nat, child: string)
    requires Rebuild(log).Ok? && i < j < |log| && Binds(log[i], child) && Binds(log[j], child)
    ensures exists k :: i < k < j && Frees(log[k], child)
  {
    BindsOne(log, i, child);
    BindsOne(log, j, child);
    FreedBetween(log, i + 1, j, child);
  }

  lemma {:induction false} FreedBetween(log: seq<OwnershipEvent>, i: nat, j: nat, child: string)
    requires i <= j <= |log| && Rebuild(log[..i]).Ok? && Rebuild(log[..j]).Ok?
    requires HasActiveOwner(Rebuild(log[..i]).value, child) && !HasActiveOwner(Rebuild(log[..j]).value, child)
    ensures exists k :: i <= k < j && Frees(log[k], child)
    decreases j
  {
    if i < j {
      RebuildPrefix(log[..j], j - 1);
      assert log[..j][..j - 1] == log[..j - 1] && log[..j][j - 1] == log[j - 1];
      if HasActiveOwner(Rebuild(log[..j - 1]).value, child) {
        assert Frees(log[j - 1], child);
      } else {
        FreedBetween(log, i, j - 1, child);
      }
    }
  }

  // ---------- The service ----------

  class PersistentOwnership {
    var log: seq<OwnershipEvent>
    var boundaries: map<string, Boundary>
    var assignments: map<string, Assignment>

    ghost function Live(): Registry
      reads this
    {
      Registry(boundaries, assignments)
    }

    /** The dictionaries are what a restart would rebuild. */
    ghost predicate Synced()
      reads this
    {
      History(log) && Rebuild(log) == Ok(Live())
    }

    constructor (log: seq<OwnershipEvent>)
      ensures this.log == log && boundaries == map[] && assignments == map[]
    {
      this.log := log;
      boundaries, assignments := map[], map[];
    }

    /** Start-up: fold the log, failing where an event contradicts the ones before it. */
    method Recover() returns (r: Result<(), OwnershipError>)
      requires boundaries == map[] && assignments == map[]
      modifies this`boundaries, this`assignments
      ensures match Rebuild(log) case Ok(registry) => r == Ok(()) && Live() == registry case Err(e) => r == Err(e)
    {
      for i := 0 to |log|
        invariant Rebuild(log[..i]) == Ok(Live())
      {
        assert log[..i + 1] == log[..i] + [log[i]];
        RebuildSnoc(log[..i], log[i]);
        r := RecoverEvent(log[i]);
        if r.Err? {
          RebuildPrefix(log, i + 1);
          return;
        }
      }
      assert log[..|log|] == log;
      return Ok(());
    }

    method RecoverEvent(e: OwnershipEvent) returns (r: Result<(), OwnershipError>)
      modifies this`boundaries, this`assignments
      ensures match RebuildStep(old(Live()), e)
              case Ok(registry) => r == Ok(()) && Live() == registry
              case Err(error) => r == Err(error)
    {
      if e.Unrelated? { return Ok(()); }
      if e.BoundaryRegistered? {
        if e.boundary.id in boundaries { return Err(EventConflict); }
        boundaries := boundaries[e.boundary.id := e.boundary];
        return Ok(());
      }
      var a := e.assignment;
      if !WellFormed(a) { return Err(InvalidEvent); }
      if a.childTaskId !in boundaries { return Err(BoundaryNotFound); }
      var active := a.childTaskId in assignments && assignments[a.childTaskId].status.ActiveOwner?;
      if e.OwnerReleased? {
        if !a.status.FormerOwner? { return Err(InvalidEvent); }
        if !active || assignments[a.childTaskId].ownerAgentId != a.ownerAgentId { return Err(EventConflict); }
      } else {
        if !a.status.ActiveOwner? { return Err(InvalidEvent); }
        if active { return Err(EventConflict); }
      }
      assignments := assignments[a.childTaskId := a];
      return Ok(());
    }

    method Register(b: Boundary, stored: bool) returns (r: Result<Boundary, OwnershipError>)
      requires Synced()
      modifies this`log, this`boundaries
      ensures History(log) && (Synced() <==> r != Err(AppendRefused))
      ensures r == if b.id in old(boundaries) then Err(BoundaryConflict)
                   else if stored then Ok(b) else Err(AppendRefused)
      ensures boundaries == if b.id in old(boundaries) then old(boundaries) else old(boundaries)[b.id := b]
      ensures log == if r.Ok? then old(log) + [BoundaryRegistered(b)] else old(log)
    {
      if b.id in boundaries { return Err(BoundaryConflict); }
      AppendKeeps(log, Live(), BoundaryRegistered(b));
      boundaries := boundaries[b.id := b];
      Append(BoundaryRegistered(b), stored);
      return if stored then Ok(b) else Err(AppendRefused);
    }

    /** What both `assign` and `transfer` answer before anything changes. */
    function Checked(child: string, regions: seq<Region>): Result<(), OwnershipError>
      reads this
    {
      if child !in boundaries then Err(BoundaryNotFound)
      else if child in assignments && assignments[child].status.ActiveOwner? then Err(OwnerConflict)
      else if regions == [] then Err(NoRegions)
      else if !AllInside(regions, boundaries[child].writeRegions) then Err(ScopeViolation)
      else Ok(())
    }

    /** Binds an owner; `transferring` only changes the event and the error for a child that still has one. */
    method Bind(child: string, owner: string, regions: seq<Region>, at: int, transferring: bool, stored: bool)
      returns (r: Result<Assignment, OwnershipError>)
      requires Synced()
      modifies this`log, this`assignments
      ensures History(log) && (Synced() <==> r != Err(AppendRefused))
      ensures child in boundaries && !old(HasActiveOwner(Live(), child)) && regions != []
              && (forall i :: 0 <= i < |regions| ==> Inside(regions[i], boundaries[child].writeRegions)) ==>
                r.Ok? || r == Err(AppendRefused)
      ensures r.Err? && r != Err(AppendRefused) ==>
                r.error == if child !in boundaries && !(transferring && old(HasActiveOwner(Live(), child)))
                           then BoundaryNotFound
                           else if old(HasActiveOwner(Live(), child))
                           then if transferring then TransferRequiresRelease else OwnerConflict
                           else if regions == [] then NoRegions else ScopeViolation
      ensures var a := Assignment(child, owner, regions, 1, ActiveOwner, at, None);
              var checked := old(if transferring && HasActiveOwner(Live(), child) then Err(TransferRequiresRelease)
                                 else Checked(child, regions));
              if checked.Err? then r == Err(checked.error) && assignments == old(assignments) && log == old(log)
              else
                && assignments == old(assignments)[child := a]
                && child in boundaries && !old(HasActiveOwner(Live(), child)) && regions != []
                && (forall i :: 0 <= i < |regions| ==> Inside(regions[i], boundaries[child].writeRegions))
                && r == (if stored then Ok(a) else Err(AppendRefused))
                && log == if stored then old(log) + [if transferring then OwnerTransferred(a) else OwnerAssigned(a)]
                          else old(log)
    {
      if transferring && child in assignments && assignments[child].status.ActiveOwner? {
        return Err(TransferRequiresRelease);
      }
      var checked := Checked(child, regions);
      if checked.Err? { return Err(checked.error); }
      var a := Assignment(child, owner, regions, 1, ActiveOwner, at, None);
      var e := if transferring then OwnerTransferred(a) else OwnerAssigned(a);
      AppendKeeps(log, Live(), e);
      assignments := assignments[child := a];
      Append(e, stored);
      return if stored then Ok(a) else Err(AppendRefused);
    }

    method Release(child: string, owner: string, at: int, stored: bool) returns (r: Result<Assignment, OwnershipError>)
      requires Synced()
      modifies this`log, this`assignments
      ensures History(log) && (Synced() <==> r != Err(AppendRefused))
      ensures if !old(HasActiveOwner(Live(), child)) then r == Err(OwnerNotAssigned)
              else if old(assignments)[child].ownerAgentId != owner then r == Err(OwnerMismatch)
              else
                && var was := old(assignments)[child];
                && var freed := was.(status := FormerOwner, releasedAt := Some(at), version := was.version + 1);
                && assignments == old(assignments)[child := freed]
                && r == if stored then Ok(freed) else Err(AppendRefused)
      ensures r == Err(OwnerNotAssigned) || r == Err(OwnerMismatch) ==> assignments == old(assignments)
      ensures log == if r.Ok? then old(log) + [OwnerReleased(r.value)] else old(log)
    {
      if child !in assignments || !assignments[child].status.ActiveOwner? { return Err(OwnerNotAssigned); }
      var was := assignments[child];
      if was.ownerAgentId != owner { return Err(OwnerMismatch); }
      var freed := was.(status := FormerOwner, releasedAt := Some(at), version := was.version + 1);
      HistoryRebuilds(log);
      AppendKeeps(log, Live(), OwnerReleased(freed));
      assignments := assignments[child := freed];
      Append(OwnerReleased(freed), stored);
      return if stored then Ok(freed) else Err(AppendRefused);
    }

    /** Lets through exactly the active owner's writes inside its assignment. */
    method AssertWriteAllowed(child: string, owner: string, region: Region) returns (r: Result<(), OwnershipError>)
      ensures r.Ok? <==>
                && child in boundaries && HasActiveOwner(Live(), child)
                && assignments[child].ownerAgentId == owner
                && Inside(region, assignments[child].writeRegions)
      ensures r.Err? ==>
                r.error == if child !in boundaries then BoundaryNotFound
                           else if !HasActiveOwner(Live(), child) then OwnerNotAssigned
                           else if assignments[child].ownerAgentId != owner then OwnerMismatch else ScopeViolation
    {
      if child !in boundaries { return Err(BoundaryNotFound); }
      if child !in assignments || !assignments[child].status.ActiveOwner? { return Err(OwnerNotAssigned); }
      if assignments[child].ownerAgentId != owner { return Err(OwnerMismatch); }
      if !Inside(region, assignments[child].writeRegions) { return Err(ScopeViolation); }
      return Ok(());
    }

    method Append(e: OwnershipEvent, stored: bool)
      modifies this`log
      ensures log == if stored then old(log) + [e] else old(log)
    {
      if stored { log := log + [e]; }
    }
  }

  /** An accepted event extends the history, and the rebuilt registry moves as the live one does. */
  lemma AppendKeeps(log: seq<OwnershipEvent>, r: Registry, e: OwnershipEvent)
    requires History(log) && Rebuild(log) == Ok(r) && Accepted(r, e)
    ensures History(log + [e]) && Rebuild(log + [e]) == RebuildStep(r, e) && RebuildStep(r, e).Ok?
  {
    HistoryRebuilds(log);
    RebuildSnoc(log, e);
    AcceptedRebuilds(r, e);
    assert (log + [e])[..|log|] == log;
  }

  // ---------- When an append is refused and the process goes on ----------

  /**
     The service changes its dictionaries before it appends. Binding an owner after a refused release
     writes a log that never rebuilds again; so does binding after a refused registration.
   */
  lemma BindAfterRefusal(log: seq<OwnershipEvent>, e: OwnershipEvent, child: string, more: seq<OwnershipEvent>)
    requires Rebuild(log).Ok? && Binds(e, child) && WellFormed(e.assignment) && e.assignment.status.ActiveOwner?
    ensures var r := Rebuild(log).value;
            Rebuild(log + [e]).Err? <==> HasActiveOwner(r, child) || child !in r.boundaries
    ensures Rebuild(log + [e]).Err? ==> Rebuild(log + [e] + more).Err?
  {
    RebuildSnoc(log, e);
    RebuildPrefix(log + [e] + more, |log| + 1);
    assert (log + [e] + more)[..|log| + 1] == log + [e];
  }
}

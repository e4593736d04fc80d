/**
 Ordered integration as a sequence of durable actions. A crash or a refused commit cuts the sequence
 anywhere; the lemmas say what survives every cut, restart and repetition.
 */
module IntegrationRuns {
  import opened Prelude
  import opened Domain
  import opened Projection
  import opened Workspace
  import opened Resolver

  // ---------- Attempts ----------

  predicate Matches(a: IntegrationAttempt, ref: string, parent: Option<string>) {
    a.clientRef == ref && (parent.None? || a.parentTaskId == parent)
  }

  function LatestIn(keys: seq<string>, vals: map<string, IntegrationAttempt>, ref: string, parent: Option<string>):
    Option<IntegrationAttempt>
  {
    if keys == [] then None
    else
      var k := keys[|keys| - 1];
      if k in vals && Matches(vals[k], ref, parent) then Some(vals[k])
      else LatestIn(keys[..|keys| - 1], vals, ref, parent)
  }

  /** The last matching attempt in insertion order. */
  function Latest(d: Dict<IntegrationAttempt>, ref: string, parent: Option<string>): Option<IntegrationAttempt> {
    LatestIn(d.keys, d.vals, ref, parent)
  }

  lemma {:induction false} LatestMatches(keys: seq<string>, vals: map<string, IntegrationAttempt>, ref: string,
                                         parent: Option<string>)
    ensures var r := LatestIn(keys, vals, ref, parent);
            && (r.Some? ==> Matches(r.value, ref, parent) && exists k :: k in keys && k in vals && vals[k] == r.value)
            && (r.Some? <==> exists k :: k in keys && k in vals && Matches(vals[k], ref, parent))
  {
    if keys != [] {
      LatestMatches(keys[..|keys| - 1], vals, ref, parent);
      assert forall k :: k in keys[..|keys| - 1] ==> k in keys;
      assert forall k :: k in keys ==> k in keys[..|keys| - 1] || k == keys[|keys| - 1];
    }
  }

  lemma {:induction false} LatestFrame(keys: seq<string>, vals: map<string, IntegrationAttempt>, id: string,
                                       a: IntegrationAttempt, ref: string, parent: Option<string>)
    requires id !in keys
    ensures LatestIn(keys, vals[id := a], ref, parent) == LatestIn(keys, vals, ref, parent)
  {
    if keys != [] { LatestFrame(keys[..|keys| - 1], vals, id, a, ref, parent); }
  }

  /** An attempt under a new id is the latest of its own reference and no other. */
  lemma LatestAdded(d: Dict<IntegrationAttempt>, a: IntegrationAttempt, ref: string, parent: Option<string>)
    requires d.Valid() && a.id !in d.vals
    ensures Latest(d.Put(a.id, a), ref, parent) == if Matches(a, ref, parent) then Some(a) else Latest(d, ref, parent)
  {
    LatestFrame(d.keys, d.vals, a.id, a, ref, parent);
    assert (d.keys + [a.id])[..|d.keys|] == d.keys;
  }

  /** Of the attempts that match, the latest is the one filed last. */
  lemma {:induction false} LatestIsLast(keys: seq<string>, vals: map<string, IntegrationAttempt>, ref: string,
                                        parent: Option<string>, i: nat)
    requires i < |keys| && keys[i] in vals && Matches(vals[keys[i]], ref, parent)
    requires forall j :: i < j < |keys| && keys[j] in vals ==> !Matches(vals[keys[j]], ref, parent)
    ensures LatestIn(keys, vals, ref, parent) == Some(vals[keys[i]])
  {
    if i < |keys| - 1 { LatestIsLast(keys[..|keys| - 1], vals, ref, parent, i); }
  }

  datatype Report = ReportIntegrated | ReportBlocked | ReportQueued | ReportRunning

  datatype Outcome = Outcome(
    clientRef: string, status: Report, code: Option<string>, message: Option<string>, ownerId: Option<string>,
    revision: Option<string>)

  /** The result the store reads back from a journaled attempt. */
  function ResultOf(a: IntegrationAttempt): Outcome {
    var status := match a.status
      case Conflicted => ReportBlocked
      case Rejected => ReportBlocked
      case Integrated => ReportIntegrated
      case IntegrationQueued => ReportQueued
      case IntegrationRunning => ReportRunning;
    Outcome(a.clientRef, status, a.code, a.message, a.ownerId, a.revision)
  }

  // ---------- One item of an order ----------

  datatype Reason = Unresolved | Refused(refusal: Refusal)

  /** The inputs of one call. `explain` renders error messages. */
  datatype Order = Order(
    h: Hashing, explain: Reason -> string, changeSets: map<string, ChangeSet>, leases: seq<WriterLease>,
    parent: Option<string>, recover: bool)

  /** The fresh id and the clock readings one item uses. */
  datatype Stamp = Stamp(id: string, queuedAt: int, startedAt: int, endedAt: int)

  ghost function Settled(o: Order, tree: Tree, cs: ChangeSet): Result<Tree, Reason> {
    if !AllResolvable(cs, o.leases) then Err(Unresolved)
    else
      match Merged(o.h, tree, cs, o.leases)
      case Ok(t) => Ok(t)
      case Err(e) => Err(Refused(e))
  }

  function QueuedAttempt(o: Order, ref: string, index: int, f: Stamp): IntegrationAttempt {
    var cs := o.changeSets;
    IntegrationAttempt(f.id, 1, o.parent, ref, index,
                       if ref in cs then Some(cs[ref].ownerId) else None,
                       if ref in cs then Some(cs[ref].baseRevision) else None,
                       IntegrationQueued, None, None, None, f.queuedAt, f.queuedAt)
  }

  function StartedAttempt(a: IntegrationAttempt, f: Stamp): IntegrationAttempt {
    a.(status := IntegrationRunning, version := a.version + 1, updatedAt := f.startedAt)
  }

  function MissingAttempt(a: IntegrationAttempt, f: Stamp): IntegrationAttempt {
    a.(status := Rejected, version := a.version + 1, code := Some("changeset_missing"), updatedAt := f.endedAt)
  }

  function FailedAttempt(a: IntegrationAttempt, o: Order, owner: string, reason: Reason, f: Stamp): IntegrationAttempt {
    var conflict := reason == Refused(Conflict);
    a.(status := if conflict then Conflicted else Rejected, version := a.version + 1,
       code := Some(if conflict then "integration_conflict" else "integration_rejected"),
       message := Some(o.explain(reason)), ownerId := Some(owner), updatedAt := f.endedAt)
  }

  function IntegratedAttempt(a: IntegrationAttempt, owner: string, revision: string, f: Stamp): IntegrationAttempt {
    a.(status := Integrated, version := a.version + 1, revision := Some(revision), ownerId := Some(owner),
       updatedAt := f.endedAt)
  }

  /** The results a call reports for a reference it has just worked on. */
  function MissingReport(ref: string): Outcome {
    Outcome(ref, ReportBlocked, Some("changeset_missing"), None, None, None)
  }

  function FailedReport(ref: string, o: Order, owner: string, reason: Reason): Outcome {
    if reason == Refused(Conflict)
    then Outcome(ref, ReportBlocked, Some("integration_conflict"), Some(o.explain(reason)), Some(owner), None)
    else Outcome(ref, ReportBlocked, Some("integration_rejected"), Some(o.explain(reason)), Some(owner), None)
  }

  function IntegratedReport(ref: string, owner: string, revision: string): Outcome {
    Outcome(ref, ReportIntegrated, None, None, Some(owner), Some(revision))
  }

  /**
     What is durable: the journal, the attempts it shows and the canonical tree; and, for the record, the
     references the adapter has been run for, and those whose run replaced the tree.
   */
  datatype World = World(
    integrations: Dict<IntegrationAttempt>, tree: Tree, ran: seq<string>, applied: seq<string>, log: seq<Event>)

  /** The kind of event that records an attempt, by what has become of it. */
  function KindOf(d: Dict<IntegrationAttempt>, a: IntegrationAttempt): IntegrationEventKind {
    match a.status
    case IntegrationQueued => if a.id in d.vals then AttemptRequeued else AttemptQueued
    case IntegrationRunning => AttemptStarted
    case Integrated => AttemptCompleted
    case Conflicted => AttemptConflict
    case Rejected => AttemptBlocked
  }

  /** A commit, or a run of the adapter with the tree it left behind if it succeeded. */
  datatype Action = Record(attempt: IntegrationAttempt) | Ran(ref: string, replaced: Option<Tree>)

  ghost function Do(w: World, a: Action): World {
    match a
    case Record(attempt) =>
      w.(integrations := w.integrations.Put(attempt.id, attempt),
         log := w.log + [IntegrationEvent(KindOf(w.integrations, attempt), attempt)])
    case Ran(ref, None) => w.(ran := w.ran + [ref])
    case Ran(ref, Some(tree)) => w.(ran := w.ran + [ref], applied := w.applied + [ref], tree := tree)
  }

  ghost function DoAll(w: World, actions: seq<Action>): World
    decreases |actions|
  {
    if actions == [] then w else DoAll(Do(w, actions[0]), actions[1..])
  }

  lemma DoCons(w: World, a: Action, rest: seq<Action>, steps: nat)
    requires steps <= |rest|
    ensures DoAll(w, ([a] + rest)[..steps + 1]) == DoAll(Do(w, a), rest[..steps])
  {
    assert ([a] + rest)[..steps + 1] == [a] + rest[..steps];
    assert ([a] + rest[..steps])[1..] == rest[..steps];
  }

  function Previous(o: Order, w: World, ref: string): Option<IntegrationAttempt> {
    if o.recover then Latest(w.integrations, ref, o.parent) else None
  }

  /** How an item ends: its last attempt and report, whether the adapter ran, and the tree it left if it succeeded. */
  datatype End = End(last: IntegrationAttempt, report: Outcome, ran: bool, replaced: Option<Tree>)

  ghost function EndOf(o: Order, tree: Tree, cs: ChangeSet, running: IntegrationAttempt, f: Stamp): End {
    match Settled(o, tree, cs)
    case Ok(t) =>
      var revision := Revision(o.h, t);
      End(IntegratedAttempt(running, cs.ownerId, revision, f),
          IntegratedReport(running.clientRef, cs.ownerId, revision), true, Some(t))
    case Err(reason) =>
      End(FailedAttempt(running, o, cs.ownerId, reason, f),
          FailedReport(running.clientRef, o, cs.ownerId, reason), reason.Refused?, None)
  }

  ghost function Final(o: Order, tree: Tree, ref: string, index: int, f: Stamp): End {
    var running := StartedAttempt(QueuedAttempt(o, ref, index, f), f);
    if ref !in o.changeSets then End(MissingAttempt(running, f), MissingReport(ref), false, None)
    else EndOf(o, tree, o.changeSets[ref], running, f)
  }

  ghost function Ending(ref: string, end: End): seq<Action> {
    (if end.ran then [Ran(ref, end.replaced)] else []) + [Record(end.last)]
  }

  /** The durable actions of one item that has no earlier attempt, in order. */
  ghost function Actions(o: Order, ref: string, index: int, f: Stamp, end: End): seq<Action> {
    var queued := QueuedAttempt(o, ref, index, f);
    [Record(queued)] + ([Record(StartedAttempt(queued, f))] + Ending(ref, end))
  }

  function Incomplete(ref: string): Outcome {
    Outcome(ref, ReportBlocked, Some("integration_incomplete"), None, None, None)
  }

  /** What a journaled attempt makes a later call report, and whether the order goes on behind it. */
  function Repeated(a: IntegrationAttempt, ref: string): (Outcome, bool) {
    if a.status.Integrated? then (ResultOf(a), true)
    else if a.status.Conflicted? || a.status.Rejected? then (ResultOf(a), false)
    else (Incomplete(ref), false)
  }

  /** References an attempt can be made for. */
  predicate ValidRef(ref: string) {
    1 <= |ref| <= 120
  }

  /** What one reference of an order calls for: its durable actions, its report, and whether to go on. */
  datatype Step = Step(actions: seq<Action>, report: Outcome, goesOn: bool) | InvalidRef

  type Plan = (World, string, int, Stamp) -> Step

  ghost function Item(o: Order, w: World, ref: string, index: int, f: Stamp): Step {
    var previous := Previous(o, w, ref);
    if previous.Some? then Step([], Repeated(previous.value, ref).0, Repeated(previous.value, ref).1)
    else if !ValidRef(ref) then InvalidRef
    else
      var end := Final(o, w.tree, ref, index, f);
      Step(Actions(o, ref, index, f, end), end.report, end.replaced.Some?)
  }

  ghost function PlanOf(o: Order): Plan {
    (w: World, ref: string, index: int, f: Stamp) => Item(o, w, ref, index, f)
  }

  datatype CallEnd = Finished | Interrupted | InvalidReference

  /** A whole call, of whose durable actions the first `steps` happen. */
  ghost function Run(plan: Plan, w: World, refs: seq<string>, index: int, stamps: seq<Stamp>, steps: nat)
    : (World, seq<Outcome>, CallEnd)
    requires |stamps| == |refs|
    decreases |refs|
  {
    if refs == [] then (w, [], Finished)
    else
      var s := plan(w, refs[0], index, stamps[0]);
      if s.InvalidRef? then (w, [], InvalidReference)
      else if steps < |s.actions| then (DoAll(w, s.actions[..steps]), [], Interrupted)
      else if !s.goesOn then (DoAll(w, s.actions), [s.report], Finished)
      else
        var rest := Run(plan, DoAll(w, s.actions), refs[1..], index + 1, stamps[1..], steps - |s.actions|);
        (rest.0, [s.report] + rest.1, rest.2)
  }

  // ---------- At most once ----------

  ghost predicate Distinct(s: seq<string>) {
    forall i, j :: 0 <= i < j < |s| ==> s[i] != s[j]
  }

  /** Ids nobody has used. */
  ghost predicate FreshFor(stamps: seq<Stamp>, d: Dict<IntegrationAttempt>) {
    && (forall i :: 0 <= i < |stamps| ==> stamps[i].id !in d.vals)
    && (forall i, j :: 0 <= i < j < |stamps| ==> stamps[i].id != stamps[j].id)
  }

  ghost predicate Has(d: Dict<IntegrationAttempt>, ref: string, parent: Option<string>) {
    exists id :: id in d.vals && Matches(d.vals[id], ref, parent)
  }

  /**
     The adapter has run at most once for every reference, and only for references with a journaled
     attempt; the tree was replaced by some of these runs, and by every one recorded as integrated.
   */
  ghost predicate Once(w: World, parent: Option<string>) {
    && w.integrations.Valid()
    && Distinct(w.ran) && Distinct(w.applied)
    && (forall ref {:trigger Has(w.integrations, ref, parent)} :: ref in w.ran ==> Has(w.integrations, ref, parent))
    && (forall ref {:trigger ref in w.ran} :: ref in w.applied ==> ref in w.ran)
    && (forall id :: id in w.integrations.vals ==> w.integrations.vals[id].id == id)
    && (forall id :: id in w.integrations.vals && w.integrations.vals[id].status.Integrated? ==>
          w.integrations.vals[id].clientRef in w.applied)
  }

  /** What no later action undoes. */
  ghost predicate Grows(w: World, v: World) {
    && w.ran <= v.ran && w.applied <= v.applied && w.log <= v.log
    && (forall id :: id in w.integrations.vals ==>
          && id in v.integrations.vals
          && v.integrations.vals[id].clientRef == w.integrations.vals[id].clientRef
          && v.integrations.vals[id].parentTaskId == w.integrations.vals[id].parentTaskId)
  }

  lemma LatestIffHas(d: Dict<IntegrationAttempt>, ref: string, parent: Option<string>)
    requires d.Valid()
    ensures Latest(d, ref, parent).Some? <==> Has(d, ref, parent)
  {
    LatestMatches(d.keys, d.vals, ref, parent);
  }

  /** A record keeps an attempt's reference, and says integrated only behind a replacement; a run follows a record. */
  ghost predicate ActionOk(w: World, a: Action, parent: Option<string>) {
    match a
    case Record(attempt) =>
      && (attempt.id in w.integrations.vals ==> SameItem(w.integrations.vals[attempt.id], attempt))
      && (attempt.status.Integrated? ==> attempt.clientRef in w.applied)
    case Ran(ref, _) => ref !in w.ran && Has(w.integrations, ref, parent)
  }

  predicate SameItem(a: IntegrationAttempt, b: IntegrationAttempt) {
    a.clientRef == b.clientRef && a.parentTaskId == b.parentTaskId
  }

  ghost predicate AllOk(w: World, actions: seq<Action>, parent: Option<string>)
    decreases |actions|
  {
    actions == [] || (ActionOk(w, actions[0], parent) && AllOk(Do(w, actions[0]), actions[1..], parent))
  }

  lemma AllOkCons(w: World, a: Action, rest: seq<Action>, parent: Option<string>)
    requires ActionOk(w, a, parent) && AllOk(Do(w, a), rest, parent)
    ensures AllOk(w, [a] + rest, parent)
  {
    assert ([a] + rest)[1..] == rest;
  }

  lemma HasAfterRecord(d: Dict<IntegrationAttempt>, a: IntegrationAttempt, ref: string, parent: Option<string>)
    requires a.id in d.vals ==> SameItem(d.vals[a.id], a)
    requires Has(d, ref, parent) || Matches(a, ref, parent)
    ensures Has(d.Put(a.id, a), ref, parent)
  {
    var e := d.Put(a.id, a);
    if Matches(a, ref, parent) {
      assert e.vals[a.id] == a;
    } else {
      var id :| id in d.vals && Matches(d.vals[id], ref, parent);
      assert id in e.vals && Matches(e.vals[id], ref, parent);
    }
  }

  lemma ActionKeepsOnce(w: World, a: Action, parent: Option<string>)
    requires Once(w, parent) && ActionOk(w, a, parent)
    ensures Once(Do(w, a), parent) && Grows(w, Do(w, a))
  {
    if a.Record? {
      PutValid(w.integrations, a.attempt.id, a.attempt);
      forall ref | ref in w.ran ensures Has(Do(w, a).integrations, ref, parent) {
        HasAfterRecord(w.integrations, a.attempt, ref, parent);
      }
    } else {
      RunKeepsLists(w, a.ref, a.replaced);
    }
  }

  /** One more run of a new reference keeps both lists free of repeats. */
  lemma RunKeepsLists(w: World, ref: string, replaced: Option<Tree>)
    requires Distinct(w.ran) && Distinct(w.applied) && ref !in w.ran
    requires forall x :: x in w.applied ==> x in w.ran
    ensures var v := Do(w, Ran(ref, replaced));
            && Distinct(v.ran) && Distinct(v.applied) && w.ran <= v.ran && w.applied <= v.applied
            && (forall x :: x in v.ran <==> x in w.ran || x == ref)
            && (forall x :: x in v.applied ==> x in v.ran)
            && (forall x :: x in w.applied ==> x in v.applied)
            && (replaced.Some? ==> ref in v.applied)
  {
    assert (w.ran + [ref])[|w.ran|] == ref;
    if replaced.Some? { assert (w.applied + [ref])[|w.applied|] == ref; }
  }

  lemma GrowsTransitive(u: World, v: World, w: World)
    requires Grows(u, v) && Grows(v, w)
    ensures Grows(u, w)
  {}

  /** Cut anywhere, a well-formed action sequence keeps the invariant. */
  lemma {:induction false} PrefixKeepsOnce(w: World, actions: seq<Action>, steps: nat, parent: Option<string>)
    requires Once(w, parent) && AllOk(w, actions, parent) && steps <= |actions|
    ensures Once(DoAll(w, actions[..steps]), parent) && Grows(w, DoAll(w, actions[..steps]))
    decreases steps
  {
    if steps > 0 {
      var v := Do(w, actions[0]);
      ActionKeepsOnce(w, actions[0], parent);
      PrefixKeepsOnce(v, actions[1..], steps - 1, parent);
      assert actions == [actions[0]] + actions[1..];
      DoCons(w, actions[0], actions[1..], steps - 1);
      GrowsTransitive(w, v, DoAll(w, actions[..steps]));
      assert Once(DoAll(w, actions[..steps]), parent) && Grows(w, DoAll(w, actions[..steps]));
    } else {
      assert DoAll(w, actions[..steps]) == w;
    }
  }

  // ---------- What the lemmas about calls need to know of a plan ----------

  predicate OnlyRecords(actions: seq<Action>, id: string) {
    forall i :: 0 <= i < |actions| && actions[i].Record? ==> actions[i].attempt.id == id
  }

  /**
     A step is well formed, adds one id at most, leaves its own reference with an attempt that repeats
     its report, and leaves the latest attempt of every other reference alone.
   */
  ghost predicate StepOk(w: World, ref: string, f: Stamp, s: Step, parent: Option<string>) {
    s.Step? ==>
      && AllOk(w, s.actions, parent) && OnlyRecords(s.actions, f.id)
      && (s.report.status.ReportIntegrated? ==> ref in DoAll(w, s.actions).applied)
      && s.report.clientRef == ref
      && var d := DoAll(w, s.actions).integrations;
         && Latest(d, ref, parent).Some? && Repeated(Latest(d, ref, parent).value, ref) == (s.report, s.goesOn)
         && (forall other :: Latest(w.integrations, other, parent).Some? ==>
               Latest(d, other, parent) == Latest(w.integrations, other, parent))
  }

  ghost predicate Sane(plan: Plan, parent: Option<string>) {
    && (forall w: World, ref: string, index: int, f: Stamp
          {:trigger StepOk(w, ref, f, plan(w, ref, index, f), parent)} ::
          Once(w, parent) && f.id !in w.integrations.vals ==>
          StepOk(w, ref, f, plan(w, ref, index, f), parent))
    && (forall w: World, ref: string, index: int, f: Stamp :: Latest(w.integrations, ref, parent).Some? ==>
          var repeated := Repeated(Latest(w.integrations, ref, parent).value, ref);
          plan(w, ref, index, f) == Step([], repeated.0, repeated.1))
  }

  /** A call adds integration records to the journal and nothing else. */
  lemma {:induction false} RunAppends(
    plan: Plan, w: World, refs: seq<string>, index: int, stamps: seq<Stamp>, steps: nat)
    requires |stamps| == |refs|
    ensures AppendsIntegration(w.log, Run(plan, w, refs, index, stamps, steps).0.log)
    decreases |refs|
  {
    if refs != [] {
      var s := plan(w, refs[0], index, stamps[0]);
      if s.Step? && steps < |s.actions| {
        ActionsAppend(w, s.actions[..steps]);
      } else if s.Step? {
        ActionsAppend(w, s.actions);
        if s.goesOn {
          RunAppends(plan, DoAll(w, s.actions), refs[1..], index + 1, stamps[1..], steps - |s.actions|);
        }
      }
    }
  }

  lemma {:induction false} ActionsAppend(w: World, actions: seq<Action>)
    ensures AppendsIntegration(w.log, DoAll(w, actions).log)
    decreases |actions|
  {
    if actions != [] { ActionsAppend(Do(w, actions[0]), actions[1..]); }
  }

  lemma {:induction false} AddedIds(w: World, actions: seq<Action>, id: string)
    requires OnlyRecords(actions, id)
    ensures forall k :: k in DoAll(w, actions).integrations.vals ==> k in w.integrations.vals || k == id
    decreases |actions|
  {
    if actions != [] { AddedIds(Do(w, actions[0]), actions[1..], id); }
  }

  /** One step, cut anywhere, keeps the invariant and the later stamps unused. */
  lemma StepKeepsOnce(w: World, ref: string, stamps: seq<Stamp>, s: Step, steps: nat, parent: Option<string>)
    requires Once(w, parent) && stamps != [] && FreshFor(stamps, w.integrations)
    requires s.Step? && StepOk(w, ref, stamps[0], s, parent) && steps <= |s.actions|
    ensures var v := DoAll(w, s.actions[..steps]);
            Once(v, parent) && Grows(w, v) && FreshFor(stamps[1..], v.integrations)
  {
    PrefixKeepsOnce(w, s.actions, steps, parent);
    AddedIds(w, s.actions[..steps], stamps[0].id);
    assert forall i :: 0 <= i < |stamps[1..]| ==> stamps[1..][i] == stamps[i + 1];
  }

  /**
     Over a whole call with recovery, cut after any number of actions: the adapter is not run a second
     time for any reference, and an attempt says integrated only if its reference was applied.
   */
  lemma {:induction false} RunKeepsOnce(
    plan: Plan, w: World, refs: seq<string>, index: int, stamps: seq<Stamp>, steps: nat, parent: Option<string>)
    requires Once(w, parent) && Sane(plan, parent) && |stamps| == |refs| && FreshFor(stamps, w.integrations)
    ensures var run := Run(plan, w, refs, index, stamps, steps); Once(run.0, parent) && Grows(w, run.0)
    decreases |refs|
  {
    if refs != [] {
      var s := plan(w, refs[0], index, stamps[0]);
      if s.Step? {
        var done := if steps < |s.actions| then steps else |s.actions|;
        StepKeepsOnce(w, refs[0], stamps, s, done, parent);
        TakeAll(s.actions);
        if steps >= |s.actions| && s.goesOn {
          var v := DoAll(w, s.actions);
          RunKeepsOnce(plan, v, refs[1..], index + 1, stamps[1..], steps - |s.actions|, parent);
          GrowsTransitive(w, v, Run(plan, v, refs[1..], index + 1, stamps[1..], steps - |s.actions|).0);
        }
      }
    }
  }

  /** Reports follow the order, and whatever they call integrated is in the tree's history. */
  ghost predicate Honest(refs: seq<string>, reports: seq<Outcome>, applied: seq<string>)
    decreases |refs|
  {
    reports == [] || (
      && refs != [] && reports[0].clientRef == refs[0]
      && (reports[0].status.ReportIntegrated? ==> refs[0] in applied)
      && Honest(refs[1..], reports[1..], applied))
  }

  lemma {:induction false} HonestAt(refs: seq<string>, reports: seq<Outcome>, applied: seq<string>, k: nat)
    requires Honest(refs, reports, applied) && k < |reports|
    ensures k < |refs| && reports[k].clientRef == refs[k]
              && (reports[k].status.ReportIntegrated? ==> refs[k] in applied)
    decreases k
  {
    if k > 0 { HonestAt(refs[1..], reports[1..], applied, k - 1); }
  }

  lemma StillIn(ref: string, v: World, w: World)
    requires Grows(v, w) && ref in v.applied
    ensures ref in w.applied
  {
    var i :| 0 <= i < |v.applied| && v.applied[i] == ref;
    assert w.applied[i] == ref;
  }

  /** Every report of a call is honest about the tree as the call leaves it. */
  lemma {:induction false} ReportedWasApplied(
    plan: Plan, w: World, refs: seq<string>, index: int, stamps: seq<Stamp>, steps: nat, parent: Option<string>)
    requires Once(w, parent) && Sane(plan, parent) && |stamps| == |refs| && FreshFor(stamps, w.integrations)
    ensures Honest(refs, Run(plan, w, refs, index, stamps, steps).1, Run(plan, w, refs, index, stamps, steps).0.applied)
    decreases |refs|, 1
  {
    if refs == [] {
    } else {
      var s := plan(w, refs[0], index, stamps[0]);
      if s.Step? && steps >= |s.actions| {
        HonestStep(plan, w, refs, index, stamps, steps, parent, s);
      }
    }
  }

  lemma {:induction false} HonestStep(
    plan: Plan, w: World, refs: seq<string>, index: int, stamps: seq<Stamp>, steps: nat, parent: Option<string>,
    s: Step)
    requires Once(w, parent) && Sane(plan, parent) && |stamps| == |refs| && FreshFor(stamps, w.integrations)
    requires refs != [] && s == plan(w, refs[0], index, stamps[0]) && s.Step? && steps >= |s.actions|
    ensures Honest(refs, Run(plan, w, refs, index, stamps, steps).1, Run(plan, w, refs, index, stamps, steps).0.applied)
    decreases |refs|, 0, 1
  {
    StepKeepsOnce(w, refs[0], stamps, s, |s.actions|, parent);
    TakeAll(s.actions);
    var v := DoAll(w, s.actions);
    if s.goesOn {
      HonestMore(plan, v, refs, index, stamps, steps - |s.actions|, parent, s.report);
    } else {
      HonestOne(refs, s.report, v);
    }
  }

  lemma {:induction false} HonestMore(
    plan: Plan, v: World, refs: seq<string>, index: int, stamps: seq<Stamp>, steps: nat, parent: Option<string>,
    first: Outcome)
    requires Once(v, parent) && Sane(plan, parent) && refs != [] && |stamps| == |refs|
               && FreshFor(stamps[1..], v.integrations)
    requires first.clientRef == refs[0] && (first.status.ReportIntegrated? ==> refs[0] in v.applied)
    ensures var rest := Run(plan, v, refs[1..], index + 1, stamps[1..], steps);
            Honest(refs, [first] + rest.1, rest.0.applied)
    decreases |refs|, 0, 0
  {
    var rest := Run(plan, v, refs[1..], index + 1, stamps[1..], steps);
    ReportedWasApplied(plan, v, refs[1..], index + 1, stamps[1..], steps, parent);
    RunKeepsOnce(plan, v, refs[1..], index + 1, stamps[1..], steps, parent);
    HonestCons(refs, first, v, rest.0, rest.1);
  }

  lemma HonestCons(refs: seq<string>, first: Outcome, v: World, end: World, rest: seq<Outcome>)
    requires refs != [] && Honest(refs[1..], rest, end.applied) && Grows(v, end) && first.clientRef == refs[0]
    requires first.status.ReportIntegrated? ==> refs[0] in v.applied
    ensures Honest(refs, [first] + rest, end.applied)
  {
    if refs[0] in v.applied { StillIn(refs[0], v, end); }
    ConsTail(first, rest);
  }

  lemma HonestOne(refs: seq<string>, first: Outcome, v: World)
    requires refs != [] && first.clientRef == refs[0]
    requires first.status.ReportIntegrated? ==> refs[0] in v.applied
    ensures Honest(refs, [first], v.applied)
  {
    assert [first][1..] == [];
  }

  // ---------- Repetition ----------

  /** A call leaves the latest attempt of every reference that had one. */
  lemma {:induction false} RunKeepsLatest(
    plan: Plan, w: World, refs: seq<string>, index: int, stamps: seq<Stamp>, steps: nat, parent: Option<string>,
    ref: string)
    requires Once(w, parent) && Sane(plan, parent) && |stamps| == |refs| && FreshFor(stamps, w.integrations)
    requires Latest(w.integrations, ref, parent).Some?
    requires Run(plan, w, refs, index, stamps, steps).2.Finished?
    ensures Latest(Run(plan, w, refs, index, stamps, steps).0.integrations, ref, parent)
              == Latest(w.integrations, ref, parent)
    decreases |refs|
  {
    if refs != [] {
      var s := plan(w, refs[0], index, stamps[0]);
      StepKeepsOnce(w, refs[0], stamps, s, |s.actions|, parent);
      TakeAll(s.actions);
      if s.goesOn {
        RunKeepsLatest(plan, DoAll(w, s.actions), refs[1..], index + 1, stamps[1..], steps - |s.actions|, parent, ref);
      }
    }
  }

  /**
     Repeating a finished call, whatever change sets, leases, stamps and interruptions the repetition
     brings, performs no durable action and reports the same results.
   */
  lemma {:induction false} RepetitionIsStable(
    plan: Plan, w: World, refs: seq<string>, index: int, stamps: seq<Stamp>, steps: nat, parent: Option<string>,
    again: Plan, index': int, stamps': seq<Stamp>, steps': nat)
    requires Once(w, parent) && Sane(plan, parent) && |stamps| == |refs| && FreshFor(stamps, w.integrations)
    requires Sane(again, parent) && |stamps'| == |refs|
    requires Run(plan, w, refs, index, stamps, steps).2.Finished?
    ensures var run := Run(plan, w, refs, index, stamps, steps);
            Run(again, run.0, refs, index', stamps', steps') == run
    decreases |refs|
  {
    if refs != [] {
      var run := Run(plan, w, refs, index, stamps, steps);
      var s := plan(w, refs[0], index, stamps[0]);
      StepKeepsOnce(w, refs[0], stamps, s, |s.actions|, parent);
      TakeAll(s.actions);
      var v := DoAll(w, s.actions);
      if s.goesOn {
        RunKeepsLatest(plan, v, refs[1..], index + 1, stamps[1..], steps - |s.actions|, parent, refs[0]);
        RepetitionIsStable(plan, v, refs[1..], index + 1, stamps[1..], steps - |s.actions|, parent,
                           again, index' + 1, stamps'[1..], steps');
      }
      assert Repeated(Latest(run.0.integrations, refs[0], parent).value, refs[0]) == (s.report, s.goesOn);
      RunSilent(again, run.0, refs, index', stamps', steps', s.report, s.goesOn);
    }
  }

  /** A step without actions moves a call on and leaves the world alone. */
  lemma RunSilent(plan: Plan, w: World, refs: seq<string>, index: int, stamps: seq<Stamp>, steps: nat, report: Outcome,
                  goesOn: bool)
    requires |stamps| == |refs| && refs != [] && plan(w, refs[0], index, stamps[0]) == Step([], report, goesOn)
    ensures var rest := Run(plan, w, refs[1..], index + 1, stamps[1..], steps);
            Run(plan, w, refs, index, stamps, steps)
            == if goesOn then (rest.0, [report] + rest.1, rest.2) else (w, [report], Finished)
  {}

  // ---------- The plan of an order ----------

  /** The actions of an item are well formed. */
  lemma ActionsOk(o: Order, w: World, ref: string, index: int, f: Stamp)
    requires Once(w, o.parent) && f.id !in w.integrations.vals && !Has(w.integrations, ref, o.parent)
    ensures AllOk(w, Actions(o, ref, index, f, Final(o, w.tree, ref, index, f)), o.parent)
    ensures OnlyRecords(Actions(o, ref, index, f, Final(o, w.tree, ref, index, f)), f.id)
  {
    var queued := QueuedAttempt(o, ref, index, f);
    var started := StartedAttempt(queued, f);
    var end := Final(o, w.tree, ref, index, f);
    var w2 := Do(Do(w, Record(queued)), Record(started));
    assert w2.integrations.vals[f.id] == started;
    EndingOk(w2, ref, end, o.parent);
    AllOkCons(Do(w, Record(queued)), Record(started), Ending(ref, end), o.parent);
    AllOkCons(w, Record(queued), [Record(started)] + Ending(ref, end), o.parent);
  }

  lemma EndingOk(w: World, ref: string, end: End, parent: Option<string>)
    requires end.last.id in w.integrations.vals && SameItem(w.integrations.vals[end.last.id], end.last)
    requires Matches(end.last, ref, parent) && ref !in w.ran
    requires end.last.status.Integrated? ==> end.ran && end.replaced.Some?
    ensures AllOk(w, Ending(ref, end), parent)
  {
    assert Has(w.integrations, ref, parent);
    var v := if end.ran then Do(w, Ran(ref, end.replaced)) else w;
    if end.ran && end.replaced.Some? { assert v.applied[|w.applied|] == ref; }
    AllOkCons(v, Record(end.last), [], parent);
    TakeAll([Record(end.last)]);
    if end.ran {
      AllOkCons(w, Ran(ref, end.replaced), [Record(end.last)], parent);
    }
  }

  /** Where a whole item leads. */
  lemma ItemEnd(o: Order, w: World, ref: string, index: int, f: Stamp, end: End)
    requires f.id !in w.integrations.vals && end.last.id == f.id
    ensures DoAll(w, Actions(o, ref, index, f, end)) == Ended(w, ref, end).(log := ItemLog(w, o, ref, index, f, end))
  {
    var queued := QueuedAttempt(o, ref, index, f);
    var started := StartedAttempt(queued, f);
    DoPair(w, Record(queued), Record(started), Ending(ref, end));
    DoEnding(Do(Do(w, Record(queued)), Record(started)), ref, end);
    PutThrice(w.integrations, f.id, queued, started, end.last);
  }

  /** An item's records in the journal: queued, started, and how it ended. */
  ghost function ItemLog(w: World, o: Order, ref: string, index: int, f: Stamp, end: End): seq<Event> {
    var queued := QueuedAttempt(o, ref, index, f);
    w.log + [IntegrationEvent(AttemptQueued, queued)] + [IntegrationEvent(AttemptStarted, StartedAttempt(queued, f))]
    + [IntegrationEvent(KindOf(w.integrations.Put(f.id, queued), end.last), end.last)]
  }

  ghost function Ended(w: World, ref: string, end: End): World {
    var v := if end.ran then Do(w, Ran(ref, end.replaced)) else w;
    v.(integrations := w.integrations.Put(end.last.id, end.last),
       log := w.log + [IntegrationEvent(KindOf(w.integrations, end.last), end.last)])
  }

  lemma DoPair(w: World, a: Action, b: Action, tail: seq<Action>)
    ensures DoAll(w, [a] + ([b] + tail)) == DoAll(Do(Do(w, a), b), tail)
  {
    assert ([a] + ([b] + tail))[1..] == [b] + tail;
    assert ([b] + tail)[1..] == tail;
  }

  lemma DoEnding(w: World, ref: string, end: End)
    ensures DoAll(w, Ending(ref, end)) == Ended(w, ref, end)
  {
    TakeAll([Record(end.last)]);
    if end.ran {
      ConsTail(Ran(ref, end.replaced), [Record(end.last)]);
      DoOne(Do(w, Ran(ref, end.replaced)), Record(end.last));
    } else {
      DoOne(w, Record(end.last));
    }
  }

  lemma PutThrice(d: Dict<IntegrationAttempt>, k: string, a: IntegrationAttempt, b: IntegrationAttempt,
                  c: IntegrationAttempt)
    requires k !in d.vals
    ensures d.Put(k, a).Put(k, b).Put(k, c) == d.Put(k, c)
  {
    assert d.vals[k := a][k := b][k := c] == d.vals[k := c];
  }

  lemma DoOne(w: World, a: Action)
    ensures DoAll(w, [a]) == Do(w, a)
  {
    assert [a][1..] == [];
  }

  /** With recovery, the plan of every order is sane. */
  lemma PlanSane(o: Order)
    requires o.recover
    ensures Sane(PlanOf(o), o.parent)
  {
    forall w: World, ref: string, index: int, f: Stamp | Once(w, o.parent) && f.id !in w.integrations.vals
      ensures StepOk(w, ref, f, PlanOf(o)(w, ref, index, f), o.parent)
    {
      ItemOk(o, w, ref, index, f);
    }
  }

  /** The report a call builds is the result the store reads back from the attempt it leaves behind. */
  lemma FinalReads(o: Order, tree: Tree, ref: string, index: int, f: Stamp)
    ensures var end := Final(o, tree, ref, index, f);
            && end.report == ResultOf(end.last)
            && Repeated(end.last, ref) == (end.report, end.replaced.Some?)
            && (end.report.status.ReportIntegrated? <==> end.replaced.Some?)
            && (end.replaced.Some? ==> end.ran)
            && end.last.id == f.id && Matches(end.last, ref, o.parent) && end.last.parentTaskId == o.parent
  {
    var running := StartedAttempt(QueuedAttempt(o, ref, index, f), f);
    if ref !in o.changeSets {
      assert running.ownerId == None && running.message == None && running.revision == None;
    } else {
      var cs := o.changeSets[ref];
      match Settled(o, tree, cs) {
        case Ok(t) => assert ResultOf(IntegratedAttempt(running, cs.ownerId, Revision(o.h, t), f)).code == None;
        case Err(reason) => assert ResultOf(FailedAttempt(running, o, cs.ownerId, reason, f)).revision == None;
      }
    }
  }

  /** The change set is mapped to leases and lies in its author's. */
  ghost predicate InScope(o: Order, cs: ChangeSet) {
    AllResolvable(cs, o.leases) && Validate(cs, cs.files, o.leases) == None
  }

  /** The tree has moved away from the base at a path of the change set. */
  predicate Moved(o: Order, tree: Tree, cs: ChangeSet) {
    Revision(o.h, tree) != cs.baseRevision && !Untouched(o.h, tree, cs.files)
  }

  /** Why a change set is not integrated: the first of the three steps that fails. */
  ghost function Cause(o: Order, cs: ChangeSet): Reason {
    if !AllResolvable(cs, o.leases) then Unresolved
    else
      match Validate(cs, cs.files, o.leases)
      case Some(refusal) => Refused(refusal)
      case None => Refused(Conflict)
  }

  /**
     How an item ends: integrated when its change set is in scope and the tree has not moved, conflicted
     when it is in scope and the tree has, and rejected when it is out of scope; attempt and report carry
     the same code, and the adapter has run unless a path could not be resolved.
   */
  lemma FinalStatusIff(o: Order, tree: Tree, ref: string, index: int, f: Stamp)
    requires ref in o.changeSets
    ensures var end, cs := Final(o, tree, ref, index, f), o.changeSets[ref];
            && (end.last.status.Integrated? <==> InScope(o, cs) && !Moved(o, tree, cs))
            && (end.last.status.Conflicted? <==> InScope(o, cs) && Moved(o, tree, cs))
            && (end.last.status.Rejected? <==> !InScope(o, cs))
            && end.last.code == end.report.code
            && end.last.code == (if !InScope(o, cs) then Some("integration_rejected")
                                 else if Moved(o, tree, cs) then Some("integration_conflict") else None)
            && (end.ran <==> AllResolvable(cs, o.leases))
            && end.last.ownerId == Some(cs.ownerId)
            && end.last.message == (if end.last.status.Integrated? then None else Some(o.explain(Cause(o, cs))))
  {
    NeverConflicts(o.changeSets[ref], o.changeSets[ref].files, o.leases);
  }

  /** A reference without a change set is rejected, and the adapter is left alone. */
  lemma MissingIsRejected(o: Order, tree: Tree, ref: string, index: int, f: Stamp)
    requires ref !in o.changeSets
    ensures var end := Final(o, tree, ref, index, f);
            && end.last.status.Rejected? && end.last.code == end.report.code == Some("changeset_missing")
            && !end.ran && end.last.ownerId.None?
  {}

  /** Validation answers with a refused path or a violation of scope, never with a conflict. */
  lemma {:induction false} NeverConflicts(cs: ChangeSet, files: seq<FileChange>, leases: seq<WriterLease>)
    ensures Validate(cs, files, leases) != Some(Conflict)
  {
    if files != [] {
      AnswersAreRefusals(files[0].path, cs.ownerId, cs.baseRevision, leases);
      NeverConflicts(cs, files[1..], leases);
    }
  }

  lemma {:induction false} AnswersAreRefusals(
    path: string, owner: string, baseRevision: string, leases: seq<WriterLease>)
    ensures AnyAllows(path, owner, baseRevision, leases) != Err(Conflict)
  {
    if leases != [] { AnswersAreRefusals(path, owner, baseRevision, leases[1..]); }
  }

  /**
     The three records of an item are one attempt: queued, running, ended, under versions one to three,
     for one reference and place of the plan, each with the clock reading of its step.
   */
  lemma ItemRecords(o: Order, tree: Tree, ref: string, index: int, f: Stamp)
    ensures var queued := QueuedAttempt(o, ref, index, f);
            var started := StartedAttempt(queued, f);
            var last := Final(o, tree, ref, index, f).last;
            && (queued.status, started.status) == (IntegrationQueued, IntegrationRunning)
            && (queued.version, started.version, last.version) == (1, 2, 3)
            && (queued.updatedAt, started.updatedAt, last.updatedAt) == (f.queuedAt, f.startedAt, f.endedAt)
            && (forall a :: a == queued || a == started || a == last ==>
                  && a.id == f.id && a.clientRef == ref && a.orderIndex == index && a.parentTaskId == o.parent
                  && a.createdAt == f.queuedAt
                  && a.baseRevision == (if ref in o.changeSets then Some(o.changeSets[ref].baseRevision) else None)
                  && a.ownerId == (if ref in o.changeSets then Some(o.changeSets[ref].ownerId) else None))
            && queued.code == started.code == None && queued.message == started.message == None
            && queued.revision == started.revision == None
  {}

  /** A call refuses a reference without an earlier attempt when it is empty or longer than 120 characters. */
  lemma BadReferenceIff(o: Order, w: World, ref: string, index: int, f: Stamp)
    ensures Item(o, w, ref, index, f).InvalidRef? <==> Previous(o, w, ref).None? && (ref == "" || |ref| > 120)
  {}

  /** An attempt put back is queued under the next version with the given message; nothing else of it changes. */
  lemma RequeuedExactly(a: IntegrationAttempt, message: Option<string>, at: int)
    ensures var r := RequeuedAttempt(a, message, at);
            && r.status.IntegrationQueued? && r.version == a.version + 1 && r.message == message && r.updatedAt == at
            && r.(status := a.status, version := a.version, message := a.message, updatedAt := a.updatedAt) == a
  {}

  /** The kind of a record tells what became of the attempt; only a return to the queue depends on what was there. */
  lemma KindTells(d: Dict<IntegrationAttempt>, a: IntegrationAttempt)
    ensures KindOf(d, a).AttemptConflict? <==> a.status.Conflicted?
    ensures KindOf(d, a).AttemptBlocked? <==> a.status.Rejected?
    ensures KindOf(d, a).AttemptCompleted? <==> a.status.Integrated?
    ensures KindOf(d, a).AttemptStarted? <==> a.status.IntegrationRunning?
    ensures KindOf(d, a).AttemptQueued? <==> a.status.IntegrationQueued? && a.id !in d.vals
  {}

  /** Without a parent every attempt of the reference matches; with one, only those made under it. */
  lemma MatchesIff(a: IntegrationAttempt, ref: string, parent: string)
    ensures Matches(a, ref, None) <==> a.clientRef == ref
    ensures Matches(a, ref, Some(parent)) <==> a.clientRef == ref && a.parentTaskId == Some(parent)
  {}

  lemma ItemOk(o: Order, w: World, ref: string, index: int, f: Stamp)
    requires o.recover && Once(w, o.parent) && f.id !in w.integrations.vals
    ensures StepOk(w, ref, f, Item(o, w, ref, index, f), o.parent)
  {
    LatestMatches(w.integrations.keys, w.integrations.vals, ref, o.parent);
    LatestIffHas(w.integrations, ref, o.parent);
    if Previous(o, w, ref).None? && ValidRef(ref) {
      FinalReads(o, w.tree, ref, index, f);
      ActionsOk(o, w, ref, index, f);
      NewItemOk(o, w, ref, index, f, Final(o, w.tree, ref, index, f));
    }
  }

  lemma NewItemOk(o: Order, w: World, ref: string, index: int, f: Stamp, end: End)
    requires w.integrations.Valid() && f.id !in w.integrations.vals && Latest(w.integrations, ref, o.parent).None?
    requires end.last.id == f.id && Matches(end.last, ref, o.parent) && (end.replaced.Some? ==> end.ran)
    ensures var v := DoAll(w, Actions(o, ref, index, f, end));
            && (end.replaced.Some? ==> ref in v.applied)
            && Latest(v.integrations, ref, o.parent) == Some(end.last)
            && (forall other :: Latest(w.integrations, other, o.parent).Some? ==>
                  Latest(v.integrations, other, o.parent) == Latest(w.integrations, other, o.parent))
  {
    ItemEnd(o, w, ref, index, f, end);
    if end.replaced.Some? { assert (w.applied + [ref])[|w.applied|] == ref; }
    LatestAdded(w.integrations, end.last, ref, o.parent);
    forall other | Latest(w.integrations, other, o.parent).Some?
      ensures Latest(w.integrations.Put(f.id, end.last), other, o.parent) == Latest(w.integrations, other, o.parent)
    {
      LatestAdded(w.integrations, end.last, other, o.parent);
    }
  }

  /** What the journal holds of an item that was cut short. */
  lemma CutItem(o: Order, w: World, ref: string, index: int, f: Stamp, end: End, steps: nat)
    requires f.id !in w.integrations.vals && 0 < steps < |Actions(o, ref, index, f, end)|
    ensures var queued := QueuedAttempt(o, ref, index, f);
            DoAll(w, Actions(o, ref, index, f, end)[..steps]).integrations
            == w.integrations.Put(f.id, if steps == 1 then queued else StartedAttempt(queued, f))
  {
    var queued := QueuedAttempt(o, ref, index, f);
    var started := StartedAttempt(queued, f);
    var tail := Ending(ref, end);
    DoCons(w, Record(queued), [Record(started)] + tail, steps - 1);
    if steps > 1 {
      DoCons(Do(w, Record(queued)), Record(started), tail, steps - 2);
      PutThrice(w.integrations, f.id, queued, queued, started);
      if steps > 2 {
        DoOne(Do(Do(w, Record(queued)), Record(started)), tail[0]);
        assert tail[..steps - 2] == [tail[0]];
      }
    }
  }

  /** A call that stopped inside an item leaves it incomplete: every later call reports that, and does nothing. */
  lemma InterruptedIsIncomplete(o: Order, w: World, ref: string, index: int, f: Stamp, steps: nat, again: Order,
                                f': Stamp)
    requires o.recover && again.recover && again.parent == o.parent && Once(w, o.parent) && f.id !in w.integrations.vals
    requires Item(o, w, ref, index, f).Step? && 0 < steps < |Item(o, w, ref, index, f).actions|
    ensures var v := DoAll(w, Item(o, w, ref, index, f).actions[..steps]);
            && Item(again, v, ref, index, f') == Step([], Incomplete(ref), false)
            && Incomplete(ref) == Outcome(ref, ReportBlocked, Some("integration_incomplete"), None, None, None)
  {
    var queued := QueuedAttempt(o, ref, index, f);
    CutItem(o, w, ref, index, f, Final(o, w.tree, ref, index, f), steps);
    LatestAdded(w.integrations, queued, ref, o.parent);
    LatestAdded(w.integrations, StartedAttempt(queued, f), ref, o.parent);
  }

  /** Two references that one order integrates, for different owners on one base, never write a common path. */
  lemma IntegratedOwnersNeverShare(
    o: Order, t: Tree, a: string, i: int, f: Stamp, u: Tree, b: string, j: int, g: Stamp, p: string)
    requires Final(o, t, a, i, f).replaced.Some? && Final(o, u, b, j, g).replaced.Some?
    requires forall k :: 0 <= k < |o.leases| && o.leases[k].status.Active? ==> Normalised(o.leases[k].region)
    requires o.changeSets[a].baseRevision == o.changeSets[b].baseRevision
    requires o.changeSets[a].ownerId != o.changeSets[b].ownerId
    ensures !(Touches(o.changeSets[a], p) && Touches(o.changeSets[b], p))
  {
    OwnersNeverShare(o.changeSets[a], o.changeSets[b], o.leases, p);
  }

  // ---------- Whole histories ----------

  /** One call of the service, cut after `steps` actions, or one attempt put back by the queue. */
  datatype Call =
    | Integrate(order: Order, refs: seq<string>, stamps: seq<Stamp>, steps: nat)
    | Requeue(id: string, message: Option<string>, at: int)

  function RequeuedAttempt(a: IntegrationAttempt, message: Option<string>, at: int): IntegrationAttempt {
    a.(status := IntegrationQueued, version := a.version + 1, message := message, updatedAt := at)
  }

  ghost predicate CallOk(w: World, c: Call, parent: Option<string>) {
    match c
    case Integrate(o, refs, stamps, _) =>
      o.recover && o.parent == parent && |stamps| == |refs| && FreshFor(stamps, w.integrations)
    case Requeue(id, _, _) => id in w.integrations.vals && w.integrations.vals[id].status.IntegrationRunning?
  }

  ghost function AfterCall(w: World, c: Call, parent: Option<string>): World
    requires CallOk(w, c, parent)
  {
    match c
    case Integrate(o, refs, stamps, steps) => Run(PlanOf(o), w, refs, 0, stamps, steps).0
    case Requeue(id, message, at) => Do(w, Record(RequeuedAttempt(w.integrations.vals[id], message, at)))
  }

  ghost predicate CallsOk(w: World, calls: seq<Call>, parent: Option<string>)
    decreases |calls|
  {
    calls == [] || (CallOk(w, calls[0], parent) && CallsOk(AfterCall(w, calls[0], parent), calls[1..], parent))
  }

  ghost function AfterCalls(w: World, calls: seq<Call>, parent: Option<string>): World
    requires CallsOk(w, calls, parent)
    decreases |calls|
  {
    if calls == [] then w else AfterCalls(AfterCall(w, calls[0], parent), calls[1..], parent)
  }

  /**
     At most once: over any number of calls with recovery and one parent, each cut at any action, with
     crashes, restarts and requeues between them, the adapter runs at most once for every client
     reference, whether the run replaces the tree or fails, and whatever of it reaches the journal.
   */
  lemma {:induction false} AtMostOnce(w: World, calls: seq<Call>, parent: Option<string>)
    requires Once(w, parent) && CallsOk(w, calls, parent)
    ensures Once(AfterCalls(w, calls, parent), parent)
    ensures Distinct(AfterCalls(w, calls, parent).ran) && Distinct(AfterCalls(w, calls, parent).applied)
    ensures Grows(w, AfterCalls(w, calls, parent))
    decreases |calls|
  {
    if calls != [] {
      var v := AfterCall(w, calls[0], parent);
      match calls[0] {
        case Integrate(o, refs, stamps, steps) =>
          PlanSane(o);
          RunKeepsOnce(PlanOf(o), w, refs, 0, stamps, steps, parent);
        case Requeue(id, message, at) =>
          ActionKeepsOnce(w, Record(RequeuedAttempt(w.integrations.vals[id], message, at)), parent);
      }
      AtMostOnce(v, calls[1..], parent);
      GrowsTransitive(w, v, AfterCalls(v, calls[1..], parent));
    }
  }

  /** A store without integration attempts. */
  function First(tree: Tree, log: seq<Event>): World {
    World(Empty(), tree, [], [], log)
  }

  lemma FirstWorld(tree: Tree, log: seq<Event>, parent: Option<string>)
    ensures Once(First(tree, log), parent)
  {}

  /**
     From an empty store on: whatever the calls, the adapter has run at most once per reference, and
     the last call's report at any place calls integrated only what it has applied.
   */
  lemma FromTheStart(tree: Tree, log: seq<Event>, calls: seq<Call>, parent: Option<string>, o: Order,
                     refs: seq<string>, stamps: seq<Stamp>, steps: nat, k: nat)
    requires CallsOk(First(tree, log), calls, parent)
    requires CallOk(AfterCalls(First(tree, log), calls, parent), Integrate(o, refs, stamps, steps), parent)
    requires k < |Run(PlanOf(o), AfterCalls(First(tree, log), calls, parent), refs, 0, stamps, steps).1|
    ensures var run := Run(PlanOf(o), AfterCalls(First(tree, log), calls, parent), refs, 0, stamps, steps);
            && Distinct(run.0.ran)
            && k < |refs| && run.1[k].clientRef == refs[k]
            && (run.1[k].status.ReportIntegrated? ==> refs[k] in run.0.applied)
  {
    var first := First(tree, log);
    var w := AfterCalls(first, calls, parent);
    FirstWorld(tree, log, parent);
    AtMostOnce(first, calls, parent);
    PlanSane(o);
    RunKeepsOnce(PlanOf(o), w, refs, 0, stamps, steps, parent);
    ReportedWasApplied(PlanOf(o), w, refs, 0, stamps, steps, parent);
    var run := Run(PlanOf(o), w, refs, 0, stamps, steps);
    HonestAt(refs, run.1, run.0.applied, k);
  }
}

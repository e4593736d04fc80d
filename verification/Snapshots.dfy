/**
 Snapshot generations against the full log: loading a generation and skipping the records it
 holds must give what reading the whole log gives, over every run of commits, refused commits,
 snapshots and restarts from any generation.
 */
module Snapshots {
  import opened Prelude
  import opened Journal

  /** Records on disk, records in memory, the in-memory sequence, and the generations on disk. */
  datatype Ledger<+E> = Ledger(
    log: seq<Record<E>>, live: seq<Record<E>>, sequence: int, generations: seq<Snapshot<E>>)

  datatype Step<+E> =
    | Commit(events: seq<E>, idem: Option<Idempotency<E>>)
    | RefusedCommit(events: seq<E>)
    | Save
    | Restart(generation: Option<nat>)   // None: no generation decodes, the log is read alone

  function Next<E>(l: Ledger<E>, s: Step<E>): Ledger<E> {
    match s
    case Commit(events, idem) =>
      var made := MakeRecords(l.sequence, events, idem);
      l.(log := l.log + made, live := l.live + made, sequence := l.sequence + |events|)
    case RefusedCommit(events) => l.(sequence := l.sequence + |events|)
    case Save => l.(generations := l.generations + [Snapshot(l.sequence, l.live)])
    case Restart(g) =>
      var snap := if g.Some? && g.value < |l.generations| then Some(l.generations[g.value]) else None;
      l.(live := LoadedRecords(snap, l.log), sequence := LoadedSequence(snap, l.log))
  }

  /** Frames that start-up can read, and snapshots taken while no refused commit has left a gap. */
  predicate StepOk<E>(l: Ledger<E>, s: Step<E>) {
    && (s.Commit? ==> s.events != [] || s.idem.None?)
    && (s.Save? ==> NoGap(l))
  }

  predicate NoGap<E>(l: Ledger<E>) {
    l.sequence == MaxSequence(0, l.live)
  }

  function Run<E>(l: Ledger<E>, steps: seq<Step<E>>): Ledger<E>
    decreases |steps|
  {
    if steps == [] then l else Run(Next(l, steps[0]), steps[1..])
  }

  predicate RunOk<E>(l: Ledger<E>, steps: seq<Step<E>>)
    decreases |steps|
  {
    steps != [] ==> StepOk(l, steps[0]) && RunOk(Next(l, steps[0]), steps[1..])
  }


  ghost predicate Covers<E>(g: Snapshot<E>, log: seq<Record<E>>) {
    && g.records <= log
    && 0 <= g.sequence
    && MaxSequence(0, g.records) <= g.sequence
  }

  ghost predicate Inv<E>(l: Ledger<E>) {
    && l.live == l.log
    && MaxSequence(0, l.log) <= l.sequence
    && (forall i :: 0 <= i < |l.log| ==> l.log[i].sequence > 0)
    && (forall i :: 0 <= i < |l.generations| ==>
          Covers(l.generations[i], l.log) && Ahead(l.generations[i], l.log)
          && l.generations[i].sequence <= MaxSequence(0, l.log))
  }

  /** Everything the generation does not hold is numbered after it. */
  ghost predicate Ahead<E>(g: Snapshot<E>, log: seq<Record<E>>) {
    forall i :: |g.records| <= i < |log| ==> log[i].sequence > g.sequence
  }

  lemma NewerLength<E>(rs: seq<Record<E>>, after: int)
    ensures |Newer(rs, after)| <= |rs|
    ensures (forall i :: 0 <= i < |rs| ==> rs[i].sequence > after) <==> |Newer(rs, after)| == |rs|
    ensures |Newer(rs, after)| == |rs| ==> Newer(rs, after) == rs
  {
    if rs != [] {
      NewerLength(rs[1..], after);
      assert forall i :: 1 <= i < |rs| ==> rs[i] == rs[1..][i - 1];
    }
  }

  lemma NewerNone<E>(rs: seq<Record<E>>, after: int)
    requires MaxSequence(0, rs) <= after
    ensures Newer(rs, after) == []
  {
    if rs != [] {
      MaxSequenceMember(0, rs);
      assert rs == [rs[0]] + rs[1..];
      MaxSequenceAppend(0, [rs[0]], rs[1..]);
      MaxSequenceMonotone(0, MaxSequence(0, [rs[0]]), rs[1..]);
      NewerNone(rs[1..], after);
    }
  }

  /** For one generation of one log: it refines full replay exactly when the rest is numbered after it. */
  lemma GenerationRefinesIff<E>(g: Snapshot<E>, log: seq<Record<E>>)
    requires Covers(g, log)
    ensures LoadedRecords(Some(g), log) == log <==> Ahead(g, log)
  {
    var rest := log[|g.records|..];
    assert log == g.records + rest;
    NewerAppend(g.records, rest, g.sequence);
    NewerNone(g.records, g.sequence);
    TakeAll(Newer(rest, g.sequence));
    NewerLength(rest, g.sequence);
    RestAhead(g, log, rest);
    TakePrefix(g.records, rest);
    TakePrefix(g.records, Newer(rest, g.sequence));
  }

  lemma RestAhead<E>(g: Snapshot<E>, log: seq<Record<E>>, rest: seq<Record<E>>)
    requires log == g.records + rest
    ensures Ahead(g, log) <==> forall i :: 0 <= i < |rest| ==> rest[i].sequence > g.sequence
  {
    assert forall i :: |g.records| <= i < |log| ==> log[i] == rest[i - |g.records|];
    assert forall i :: 0 <= i < |rest| ==> rest[i] == log[i + |g.records|];
  }

  lemma LoadAlone<E>(log: seq<Record<E>>)
    requires forall i :: 0 <= i < |log| ==> log[i].sequence > 0
    ensures LoadedRecords(None, log) == log && LoadedSequence(None, log) == MaxSequence(0, log)
  {
    NewerLength(log, 0);
  }

  lemma LoadGeneration<E>(g: Snapshot<E>, log: seq<Record<E>>)
    requires Covers(g, log) && Ahead(g, log) && g.sequence <= MaxSequence(0, log)
    ensures LoadedRecords(Some(g), log) == log && LoadedSequence(Some(g), log) == MaxSequence(0, log)
  {
    GenerationRefinesIff(g, log);
    var rest := log[|g.records|..];
    assert log == g.records + rest && LoadedRecords(Some(g), log)[|g.records|..] == rest;
    MaxSequenceAppend(0, g.records, rest);
    var low := MaxSequence(0, g.records);
    MaxSequenceMonotone(low, g.sequence, rest);
    if rest == [] {
      assert MaxSequence(0, log) == low;
    } else {
      assert rest[0] == log[|g.records|];
      MaxSequenceMember(low, rest);
      MaxSequenceBound(g.sequence, rest, MaxSequence(low, rest));
    }
  }

  lemma MadeAhead<E>(l: Ledger<E>, events: seq<E>, idem: Option<Idempotency<E>>)
    requires events != [] || idem.None?
    ensures forall i :: 0 <= i < |MakeRecords(l.sequence, events, idem)| ==>
              MakeRecords(l.sequence, events, idem)[i].sequence > l.sequence
  {
  }

  lemma CommitInv<E>(l: Ledger<E>, events: seq<E>, idem: Option<Idempotency<E>>)
    requires Inv(l) && (events != [] || idem.None?)
    ensures Inv(Next(l, Commit(events, idem)))
  {
    var made := MakeRecords(l.sequence, events, idem);
    MadeAhead(l, events, idem);
    FrameAppended(l.log, l.sequence, events, idem);
    GenerationsAhead(l, made);
    PositiveAppend(l.log, made);
  }

  lemma GenerationsAhead<E>(l: Ledger<E>, made: seq<Record<E>>)
    requires Inv(l) && forall i :: 0 <= i < |made| ==> made[i].sequence > l.sequence
    ensures forall i :: 0 <= i < |l.generations| ==>
              Covers(l.generations[i], l.log + made) && Ahead(l.generations[i], l.log + made)
              && l.generations[i].sequence <= MaxSequence(0, l.log + made)
  {
    MaxSequenceGrows(l.log, made);
    forall i | 0 <= i < |l.generations|
      ensures Covers(l.generations[i], l.log + made) && Ahead(l.generations[i], l.log + made)
    {
      StillAhead(l.generations[i], l.log, made);
    }
  }

  lemma PositiveAppend<E>(log: seq<Record<E>>, made: seq<Record<E>>)
    requires forall i :: 0 <= i < |log| ==> log[i].sequence > 0
    requires forall i :: 0 <= i < |made| ==> made[i].sequence > 0
    ensures forall i :: 0 <= i < |log + made| ==> (log + made)[i].sequence > 0
  {
    assert forall i :: 0 <= i < |log + made| ==> (log + made)[i] == if i < |log| then log[i] else made[i - |log|];
  }

  lemma MaxSequenceGrows<E>(log: seq<Record<E>>, made: seq<Record<E>>)
    ensures MaxSequence(0, log) <= MaxSequence(0, log + made)
  {
    MaxSequenceAppend(0, log, made);
    MaxSequenceBase(MaxSequence(0, log), made);
  }

  lemma MaxSequenceBase<E>(base: int, rs: seq<Record<E>>)
    ensures MaxSequence(base, rs) >= base
  {}

  lemma StillAhead<E>(g: Snapshot<E>, log: seq<Record<E>>, made: seq<Record<E>>)
    requires Covers(g, log) && Ahead(g, log)
    requires forall i :: 0 <= i < |made| ==> made[i].sequence > g.sequence
    ensures Covers(g, log + made) && Ahead(g, log + made)
  {}

  lemma NextInv<E>(l: Ledger<E>, s: Step<E>)
    requires Inv(l) && StepOk(l, s)
    ensures Inv(Next(l, s))
  {
    match s
    case Commit(events, idem) =>
      CommitInv(l, events, idem);
    case RefusedCommit(_) =>
    case Save =>
      var g := Snapshot(l.sequence, l.live);
    case Restart(g) =>
      if g.Some? && g.value < |l.generations| {
        LoadGeneration(l.generations[g.value], l.log);
      } else {
        LoadAlone(l.log);
      }
  }

  lemma {:induction false} RunInv<E>(l: Ledger<E>, steps: seq<Step<E>>)
    requires Inv(l) && RunOk(l, steps)
    ensures Inv(Run(l, steps))
    decreases |steps|
  {
    if steps != [] {
      NextInv(l, steps[0]);
      RunInv(Next(l, steps[0]), steps[1..]);
    }
  }

  /**
   Over every run whose snapshots were taken without a gap: whichever generation a restart loads,
   and also when it loads none, it rebuilds the same records, index and sequence.
   */
  lemma AnyGenerationSameState<E>(steps: seq<Step<E>>, g: nat)
    requires var l0: Ledger<E> := Ledger([], [], 0, []); RunOk(l0, steps) && g < |Run(l0, steps).generations|
    ensures var l := Run(Ledger([], [], 0, []), steps);
            var a, b := Next(l, Restart(Some(g))), Next(l, Restart(None));
            a == b && a.live == l.log && IndexOf(a.live) == IndexOf(l.live)
  {
    var l0: Ledger<E> := Ledger([], [], 0, []);
    RunInv(l0, steps);
    var l := Run(l0, steps);
    LoadGeneration(l.generations[g], l.log);
    LoadAlone(l.log);
    SameAfterRestart(l, g);
  }

  /** A restart depends on a ledger only through what it loads. */
  lemma SameAfterRestart<E>(l: Ledger<E>, g: nat)
    requires g < |l.generations| && l.live == l.log
    requires LoadedRecords(Some(l.generations[g]), l.log) == l.log == LoadedRecords(None, l.log)
    requires LoadedSequence(Some(l.generations[g]), l.log) == LoadedSequence(None, l.log)
    ensures var a, b := Next(l, Restart(Some(g))), Next(l, Restart(None));
            a == b && a.live == l.log && IndexOf(a.live) == IndexOf(l.live)
  {}

  /**
   A snapshot is safe for ever exactly when it is taken without a gap. With a gap, one start-up
   that falls back past it and one commit are enough to lose that commit to the next start-up.
   */
  lemma SnapshotSafeIffNoGap<E(!new)>(l: Ledger<E>, e: E)
    requires Inv(l)
    ensures (forall steps :: RunOk(Next(l, Save), steps) ==>
               SavedRefines(l, Run(Next(l, Save), steps)))
            <==> NoGap(l)
  {
    if NoGap(l) {
      forall steps | RunOk(Next(l, Save), steps) ensures SavedRefines(l, Run(Next(l, Save), steps)) {
        NoGapStaysSafe(l, steps);
      }
    } else {
      GapLosesCommit(l, e);
      RunTwo(Next(l, Save), Restart(None), Commit([e], None));
      assert !SavedRefines(l, Run(Next(l, Save), [Restart(None), Commit([e], None)]));
    }
  }

  lemma NoGapStaysSafe<E>(l: Ledger<E>, steps: seq<Step<E>>)
    requires Inv(l) && NoGap(l) && RunOk(Next(l, Save), steps)
    ensures SavedRefines(l, Run(Next(l, Save), steps))
  {
    var saved := Next(l, Save);
    NextInv(l, Save);
    RunInv(saved, steps);
    GenerationsKept(saved, steps);
    assert Run(saved, steps).generations[|l.generations|] == Snapshot(l.sequence, l.live);
    GenerationRefinesIff(Snapshot(l.sequence, l.live), Run(saved, steps).log);
  }

  ghost predicate SavedRefines<E>(l: Ledger<E>, later: Ledger<E>) {
    LoadedRecords(Some(Snapshot(l.sequence, l.live)), later.log) == later.log
  }

  lemma {:induction false} GenerationsKept<E>(l: Ledger<E>, steps: seq<Step<E>>)
    ensures l.generations <= Run(l, steps).generations
    decreases |steps|
  {
    if steps != [] {
      GenerationsKept(Next(l, steps[0]), steps[1..]);
    }
  }

  lemma RunTwo<E>(l: Ledger<E>, a: Step<E>, b: Step<E>)
    ensures Run(l, [a, b]) == Next(Next(l, a), b)
    ensures RunOk(l, [a, b]) <==> StepOk(l, a) && StepOk(Next(l, a), b)
  {
    var steps := [a, b];
    assert steps[1..] == [b] && steps[1..][1..] == [];
    assert Run(l, steps) == Run(Next(l, a), steps[1..]) == Run(Next(Next(l, a), b), steps[1..][1..]);
    assert RunOk(Next(l, a), steps[1..]) <==> StepOk(Next(l, a), b) && RunOk(Next(Next(l, a), b), steps[1..][1..]);
  }

  /** The run: save with a gap, start without that generation, commit `e`; the generation then hides `e`. */
  lemma GapLosesCommit<E>(l: Ledger<E>, e: E)
    requires Inv(l) && !NoGap(l)
    ensures var saved := Next(l, Save);
            var later := Next(Next(saved, Restart(None)), Commit([e], None));
            && StepOk(saved, Restart(None)) && StepOk(Next(saved, Restart(None)), Commit([e], None))
            && later.log == l.log + [EventRecord(MaxSequence(0, l.log) + 1, e)]
            && LoadedRecords(Some(Snapshot(l.sequence, l.live)), later.log) == l.log
  {
    LoadAlone(l.log);
    OneRecord(MaxSequence(0, l.log), e);
    FallBack(l, e);
    GapHides(l.log, l.sequence, EventRecord(MaxSequence(0, l.log) + 1, e));
  }

  /** A start without any generation numbers the next commit after the journal alone. */
  lemma FallBack<E>(l: Ledger<E>, e: E)
    requires l.live == l.log && LoadedRecords(None, l.log) == l.log
               && LoadedSequence(None, l.log) == MaxSequence(0, l.log)
    requires MakeRecords(MaxSequence(0, l.log), [e], None) == [EventRecord(MaxSequence(0, l.log) + 1, e)]
    ensures var saved := Next(l, Save);
            && StepOk(saved, Restart(None)) && StepOk(Next(saved, Restart(None)), Commit([e], None))
            && Next(Next(saved, Restart(None)), Commit([e], None)).log == l.log
                 + [EventRecord(MaxSequence(0, l.log) + 1, e)]
  {}

  lemma OneRecord<E>(sequence: int, e: E)
    ensures MakeRecords(sequence, [e], None) == [EventRecord(sequence + 1, e)]
  {
  }

  lemma GapHides<E>(log: seq<Record<E>>, sequence: int, r: Record<E>)
    requires MaxSequence(0, log) <= sequence && r.sequence <= sequence
    ensures LoadedRecords(Some(Snapshot(sequence, log)), log + [r]) == log
  {
    NewerSnoc(log, r, sequence);
    NewerNone(log, sequence);
  }

  /** A snapshot file written by a process decodes to what the process held. */
  lemma SavedDecodes<E>(f: Format<E>, l: Ledger<E>)
    requires Inv(l)
    ensures DecodeSnapshot(f, SnapshotFile(SNAPSHOT_FORMAT_VERSION, l.sequence, f.canonicalHash(l.live), l.live))
         == Some(Snapshot(l.sequence, l.live))
  {
    MaxSequenceMember(0, l.live);
  }
}

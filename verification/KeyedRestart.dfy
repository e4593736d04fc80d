/**
 Keyed creation over crashes and restarts: the journal file carries event and key in one frame, so a
 crash at any byte of it is a refused commit or a lost reply, and the index a start rebuilds, from the
 file alone or on top of any snapshot generation, answers as the one that was lost.
 */
module KeyedRestart {
  import opened Prelude
  import opened Journal
  import opened Recovery
  import opened KeyedWrites
  import Snapshots

  /** The service: its journal file, records in memory, last sequence number and the snapshots on disk. */
  datatype Process<+E> = Process(file: bytes, records: seq<Record<E>>, sequence: int, generations: seq<Snapshot<E>>)

  /**
     What follows a request: nothing, a stop, or a crash that leaves `cut` bytes of its frame. The
     start behind it loads the generation `from`, or none.
   */
  datatype After = Runs | Stopped(from: Option<nat>) | Died(cut: nat, from: Option<nat>)

  /** A request, before which the process may save a snapshot. */
  datatype Step<+E> = Step(saves: bool, request: Request<E>, commitId: string, after: After)

  /** The request as the process serves it, numbered from its last sequence number. */
  function Taken<E>(p: Process<E>, s: Step<E>): Request<E> {
    s.request.(sequence := p.sequence)
  }

  /** The bytes a step's commit writes when nothing cuts them. */
  function Frame<E>(f: Format<E>, p: Process<E>, s: Step<E>): bytes {
    if Writes(p.records, Taken(p, s)) then Written(f, KeyedFrame(f, Taken(p, s), s.commitId)) else []
  }

  /** The snapshots on disk once the step has saved its own. */
  function Generations<E>(p: Process<E>, s: Step<E>): seq<Snapshot<E>> {
    if s.saves then p.generations + [Snapshot(p.sequence, p.records)] else p.generations
  }

  predicate SavesWithoutGap<E>(p: Process<E>, s: Step<E>) {
    s.saves ==> p.sequence == MaxSequence(0, p.records)
  }

  function Chosen<E>(generations: seq<Snapshot<E>>, from: Option<nat>): Option<Snapshot<E>> {
    if from.Some? && from.value < |generations| then Some(generations[from.value]) else None
  }

  /** Start-up: the chosen generation and the records of the file it does not hold. */
  function Start<E>(f: Format<E>, file: bytes, generations: seq<Snapshot<E>>, from: Option<nat>): Option<Process<E>> {
    match Reload(f, file)
    case None => None
    case Some((kept, log)) =>
      var snap := Chosen(generations, from);
      Some(Process(kept, LoadedRecords(snap, log), LoadedSequence(snap, log), generations))
  }

  function Advance<E>(f: Format<E>, p: Process<E>, s: Step<E>): Option<Process<E>> {
    match s.after
    case Runs =>
      Some(Process(p.file + Frame(f, p, s), Serve(p.records, Taken(p, s)).0,
                   p.sequence + (if Commits(p.records, Taken(p, s)) then 1 else 0), Generations(p, s)))
    case Stopped(from) => Start(f, p.file + Frame(f, p, s), Generations(p, s), from)
    case Died(cut, from) => Start(f, p.file + Frame(f, p, s)[..min(cut, |Frame(f, p, s)|)], Generations(p, s), from)
  }

  /** The answer the caller gets; a process that dies gives none. */
  function Reply<E>(p: Process<E>, s: Step<E>): Option<Answer<E>> {
    if s.after.Died? then None else Serve(p.records, Taken(p, s)).1
  }

  /** Only the newline of the frame is missing. */
  predicate TornAtNewline<E>(f: Format<E>, p: Process<E>, s: Step<E>) {
    s.after.Died? && s.after.cut + 1 == |Frame(f, p, s)|
  }

  /** The request without a file that a step amounts to: a crash refuses the commit or loses the reply. */
  function Meant<E>(f: Format<E>, p: Process<E>, s: Step<E>): Request<E> {
    if s.after.Died? && Writes(p.records, Taken(p, s))
    then Taken(p, s).(fate := if s.after.cut + 1 < |Frame(f, p, s)| then Refused else ReplyLost)
    else Taken(p, s)
  }

  function LedgerOf<E>(p: Process<E>): Snapshots.Ledger<E> {
    Snapshots.Ledger(p.records, p.records, p.sequence, p.generations)
  }

  /** The file holds the frames `es`, the memory their records, and every snapshot a prefix of them. */
  ghost predicate Holding<E>(f: Format<E>, p: Process<E>, es: seq<Envelope<E>>) {
    && AllOk(f, es) && p.file == WrittenAll(f, es) && p.records == RecordsOf(es)
    && Snapshots.Inv(LedgerOf(p))
  }

  function Added<E>(f: Format<E>, p: Process<E>, s: Step<E>): seq<Envelope<E>> {
    if Writes(p.records, Meant(f, p, s)) then [KeyedFrame(f, Taken(p, s), s.commitId)] else []
  }

  // ---------- One step ----------

  /** Whatever a start loads, it reads the whole log. */
  lemma StartsAlike<E>(l: Snapshots.Ledger<E>, from: Option<nat>)
    requires Snapshots.Inv(l)
    ensures LoadedRecords(Chosen(l.generations, from), l.log) == l.log
    ensures LoadedSequence(Chosen(l.generations, from), l.log) == MaxSequence(0, l.log)
    ensures Snapshots.Inv(Snapshots.Ledger(l.log, l.log, MaxSequence(0, l.log), l.generations))
  {
    if from.Some? && from.value < |l.generations| {
      Snapshots.LoadGeneration(l.generations[from.value], l.log);
    } else {
      Snapshots.LoadAlone(l.log);
    }
  }

  lemma SavedInv<E>(p: Process<E>, s: Step<E>)
    requires Snapshots.Inv(LedgerOf(p)) && SavesWithoutGap(p, s)
    ensures Snapshots.Inv(LedgerOf(p.(generations := Generations(p, s))))
  {
    if s.saves { Snapshots.NextInv(LedgerOf(p), Snapshots.Save); }
  }

  /** The ledger once the step's frame is written. */
  lemma WrittenInv<E>(p: Process<E>, s: Step<E>)
    requires Snapshots.Inv(LedgerOf(p)) && SavesWithoutGap(p, s)
    ensures var log := p.records + MakeRecords(p.sequence, [s.request.event], Keyed(Taken(p, s)));
            Snapshots.Inv(Snapshots.Ledger(log, log, p.sequence + 1, Generations(p, s)))
  {
    SavedInv(p, s);
    Snapshots.CommitInv(LedgerOf(p.(generations := Generations(p, s))), [s.request.event], Keyed(Taken(p, s)));
  }

  /**
     A crash at any byte of the frame, or none, and a start from any generation leave the records that
     `Serve` gives for a refused commit, a lost reply or a served request; and unless the tear is at the
     newline, the file holds whole frames only.
   */
  lemma OneStep<E(!new)>(f: Format<E>, p: Process<E>, es: seq<Envelope<E>>, s: Step<E>)
    requires IsSyntax(f.text) && Holding(f, p, es) && SavesWithoutGap(p, s)
    ensures Advance(f, p, s).Some?
    ensures Advance(f, p, s).value.records == Serve(p.records, Meant(f, p, s)).0
    ensures !TornAtNewline(f, p, s) ==> Holding(f, Advance(f, p, s).value, es + Added(f, p, s))
  {
    if !Writes(p.records, Taken(p, s)) {
      IdleStep(f, p, es, s);
    } else if s.after.Died? {
      DiedStep(f, p, es, s);
    } else if s.after.Stopped? {
      StoppedStep(f, p, es, s);
    } else {
      StoredStep(f, p, es, s);
    }
  }

  lemma DiedStep<E(!new)>(f: Format<E>, p: Process<E>, es: seq<Envelope<E>>, s: Step<E>)
    requires IsSyntax(f.text) && Holding(f, p, es) && SavesWithoutGap(p, s)
    requires Writes(p.records, Taken(p, s)) && s.after.Died?
    ensures Advance(f, p, s).Some?
    ensures Advance(f, p, s).value.records == Serve(p.records, Meant(f, p, s)).0
    ensures !TornAtNewline(f, p, s) ==> Holding(f, Advance(f, p, s).value, es + Added(f, p, s))
  {
    DiedStart(f, p, es, s);
    CutMeans(f, p, es, s);
  }

  lemma DiedStart<E(!new)>(f: Format<E>, p: Process<E>, es: seq<Envelope<E>>, s: Step<E>)
    requires IsSyntax(f.text) && Holding(f, p, es) && SavesWithoutGap(p, s)
    requires Writes(p.records, Taken(p, s)) && s.after.Died?
    ensures var start, e := Advance(f, p, s), KeyedFrame(f, Taken(p, s), s.commitId);
            && start == Some(Left(f, p, s, min(s.after.cut, |Frame(f, p, s)|)))
            && if s.after.cut + 1 < |Frame(f, p, s)| then Holding(f, start.value, es)
               else !TornAtNewline(f, p, s) ==> Holding(f, start.value, es + [e])
  {
    CutStart(f, p, es, s, min(s.after.cut, |Frame(f, p, s)|), s.after.from);
  }

  /** Refused or lost: what a cut frame amounts to. */
  lemma CutMeans<E>(f: Format<E>, p: Process<E>, es: seq<Envelope<E>>, s: Step<E>)
    requires Writes(p.records, Taken(p, s)) && s.after.Died?
    ensures var e := KeyedFrame(f, Taken(p, s), s.commitId);
            if s.after.cut + 1 < |Frame(f, p, s)|
            then Serve(p.records, Meant(f, p, s)).0 == p.records + [] && es + Added(f, p, s) == es
            else Serve(p.records, Meant(f, p, s)).0 == p.records + e.records && es + Added(f, p, s) == es + [e]
  {
    TakeAll(p.records);
    TakeAll(es);
  }

  /** Nothing is written: the file starts again as it is. */
  lemma IdleStep<E(!new)>(f: Format<E>, p: Process<E>, es: seq<Envelope<E>>, s: Step<E>)
    requires IsSyntax(f.text) && Holding(f, p, es) && SavesWithoutGap(p, s) && !Writes(p.records, Taken(p, s))
    ensures Advance(f, p, s).Some? && Advance(f, p, s).value.records == Serve(p.records, Meant(f, p, s)).0
    ensures Holding(f, Advance(f, p, s).value, es + Added(f, p, s))
  {
    NothingServed(p.records, Taken(p, s));
    TakeAll(es);
    SavedInv(p, s);
    var frame := Frame(f, p, s);
    assert frame == [] && frame[..0] == [];
    TakeAll(p.file);
    if !s.after.Runs? { WholeStart(f, p, es, s); }
  }

  lemma NothingServed<E>(records: seq<Record<E>>, r: Request<E>)
    requires !Writes(records, r)
    ensures Serve(records, r).0 == records
  {}

  lemma WholeStart<E(!new)>(f: Format<E>, p: Process<E>, es: seq<Envelope<E>>, s: Step<E>)
    requires IsSyntax(f.text) && Holding(f, p, es) && SavesWithoutGap(p, s) && !s.after.Runs?
    ensures var start := Start(f, p.file, Generations(p, s), s.after.from);
            start.Some? && start.value.records == p.records && Holding(f, start.value, es)
  {
    ScanWritten(f, es);
    SavedInv(p, s);
    StartsAlike(LedgerOf(p.(generations := Generations(p, s))), s.after.from);
  }

  lemma StoppedStep<E(!new)>(f: Format<E>, p: Process<E>, es: seq<Envelope<E>>, s: Step<E>)
    requires IsSyntax(f.text) && Holding(f, p, es) && SavesWithoutGap(p, s)
    requires Writes(p.records, Taken(p, s)) && s.after.Stopped?
    ensures Advance(f, p, s).Some? && Advance(f, p, s).value.records == Serve(p.records, Taken(p, s)).0
    ensures Holding(f, Advance(f, p, s).value, es + Added(f, p, s))
  {
    StoppedStart(f, p, es, s);
    WholeMeans(f, p, es, s);
  }

  lemma StoppedStart<E(!new)>(f: Format<E>, p: Process<E>, es: seq<Envelope<E>>, s: Step<E>)
    requires IsSyntax(f.text) && Holding(f, p, es) && SavesWithoutGap(p, s)
    requires Writes(p.records, Taken(p, s)) && s.after.Stopped?
    ensures var start, e := Advance(f, p, s), KeyedFrame(f, Taken(p, s), s.commitId);
            start == Some(Left(f, p, s, |Frame(f, p, s)|)) && Holding(f, start.value, es + [e])
  {
    CutStart(f, p, es, s, |Frame(f, p, s)|, s.after.from);
  }

  lemma StoredStep<E(!new)>(f: Format<E>, p: Process<E>, es: seq<Envelope<E>>, s: Step<E>)
    requires IsSyntax(f.text) && Holding(f, p, es) && SavesWithoutGap(p, s)
    requires Writes(p.records, Taken(p, s)) && s.after.Runs?
    ensures Advance(f, p, s).Some? && Advance(f, p, s).value.records == Serve(p.records, Taken(p, s)).0
    ensures Holding(f, Advance(f, p, s).value, es + Added(f, p, s))
  {
    CutReload(f, p, es, s, |Frame(f, p, s)|);
    WholeMeans(f, p, es, s);
    WrittenInv(p, s);
  }

  /** A frame nothing cuts is served as it stands. */
  lemma WholeMeans<E>(f: Format<E>, p: Process<E>, es: seq<Envelope<E>>, s: Step<E>)
    requires Writes(p.records, Taken(p, s)) && !s.after.Died?
    ensures var e := KeyedFrame(f, Taken(p, s), s.commitId);
            && e.records == MakeRecords(p.sequence, [s.request.event], Keyed(Taken(p, s)))
            && Serve(p.records, Taken(p, s)).0 == p.records + e.records && es + Added(f, p, s) == es + [e]
  {}

  /** What the file alone gives back, and the frames it then holds. */
  lemma CutReload<E(!new)>(f: Format<E>, p: Process<E>, es: seq<Envelope<E>>, s: Step<E>, k: nat)
    requires IsSyntax(f.text) && AllOk(f, es) && p.file == WrittenAll(f, es) && p.records == RecordsOf(es)
    requires Writes(p.records, Taken(p, s)) && k <= |Frame(f, p, s)|
    ensures var w, e := Frame(f, p, s), KeyedFrame(f, Taken(p, s), s.commitId);
            && Reload(f, p.file + w[..k])
            == Some(if k + 1 < |w| then (p.file, p.records + []) else (p.file + w[..k], p.records + e.records))
            && AllOk(f, es + [e]) && w[..|w|] == w
            && WrittenAll(f, es + [e]) == p.file + w && RecordsOf(es + [e]) == p.records + e.records
            && p.records + [] == p.records
  {
    var e := KeyedFrame(f, Taken(p, s), s.commitId);
    AppendedFrameReadable(f, p.sequence, [s.request.event], map[], Keyed(Taken(p, s)), s.commitId);
    CutCommit(f, es, e, k);
    OneMore(f, es, e);
    TakeAll(p.records);
    TakeAll(Frame(f, p, s));
  }

  lemma StartOf<E>(f: Format<E>, file: bytes, kept: bytes, l: Snapshots.Ledger<E>, from: Option<nat>)
    requires Reload(f, file) == Some((kept, l.log)) && Snapshots.Inv(l)
    ensures var start := Process(kept, l.log, MaxSequence(0, l.log), l.generations);
            Start(f, file, l.generations, from) == Some(start) && Snapshots.Inv(LedgerOf(start))
  {
    StartsAlike(l, from);
  }

  /** What a start finds behind the first `k` bytes of the step's frame: the frame whole, or nothing of it. */
  function Left<E>(f: Format<E>, p: Process<E>, s: Step<E>, k: nat): Process<E>
    requires k <= |Frame(f, p, s)|
  {
    if k + 1 < |Frame(f, p, s)| then
      Process(p.file, p.records, MaxSequence(0, p.records), Generations(p, s))
    else
      var log := p.records + KeyedFrame(f, Taken(p, s), s.commitId).records;
      Process(p.file + Frame(f, p, s)[..k], log, MaxSequence(0, log), Generations(p, s))
  }

  lemma CutStart<E(!new)>(f: Format<E>, p: Process<E>, es: seq<Envelope<E>>, s: Step<E>, k: nat, from: Option<nat>)
    requires IsSyntax(f.text) && Holding(f, p, es) && SavesWithoutGap(p, s)
    requires Writes(p.records, Taken(p, s)) && k <= |Frame(f, p, s)|
    ensures var w, e := Frame(f, p, s), KeyedFrame(f, Taken(p, s), s.commitId);
            var start := Left(f, p, s, k);
            && Start(f, p.file + w[..k], Generations(p, s), from) == Some(start)
            && w[..|w|] == w
            && Snapshots.Inv(LedgerOf(start))
            && (k + 1 < |w| ==> Holding(f, start, es))
            && (k == |w| ==> Holding(f, start, es + [e]))
  {
    var w, e := Frame(f, p, s), KeyedFrame(f, Taken(p, s), s.commitId);
    CutReload(f, p, es, s, k);
    if k + 1 < |w| {
      SavedInv(p, s);
      StartOf(f, p.file + w[..k], p.file, LedgerOf(p.(generations := Generations(p, s))), from);
    } else {
      WrittenInv(p, s);
      var log := p.records + e.records;
      StartOf(f, p.file + w[..k], p.file + w[..k], Snapshots.Ledger(log, log, p.sequence + 1, Generations(p, s)), from);
    }
  }

  // ---------- Runs ----------

  function Reached<E>(f: Format<E>, p: Process<E>, steps: seq<Step<E>>): Option<Process<E>> {
    if steps == [] then Some(p)
    else
      match Reached(f, p, steps[..|steps| - 1])
      case None => None
      case Some(q) => Advance(f, q, steps[|steps| - 1])
  }

  /** No crash leaves out the newline alone, and no snapshot is saved inside a numbering gap. */
  predicate Regular<E>(f: Format<E>, p: Process<E>, steps: seq<Step<E>>) {
    steps == [] ||
    (Regular(f, p, steps[..|steps| - 1]) &&
     match Reached(f, p, steps[..|steps| - 1])
     case None => true
     case Some(q) => !TornAtNewline(f, q, steps[|steps| - 1]) && SavesWithoutGap(q, steps[|steps| - 1]))
  }

  function AllMeant<E>(f: Format<E>, p: Process<E>, steps: seq<Step<E>>): seq<Request<E>> {
    if steps == [] then []
    else
      AllMeant(f, p, steps[..|steps| - 1]) +
      match Reached(f, p, steps[..|steps| - 1])
      case None => []
      case Some(q) => [Meant(f, q, steps[|steps| - 1])]
  }

  function AllAdded<E>(f: Format<E>, p: Process<E>, steps: seq<Step<E>>): seq<Envelope<E>> {
    if steps == [] then []
    else
      AllAdded(f, p, steps[..|steps| - 1]) +
      match Reached(f, p, steps[..|steps| - 1])
      case None => []
      case Some(q) => Added(f, q, steps[|steps| - 1])
  }

  function ReplyTo<E>(f: Format<E>, p: Process<E>, steps: seq<Step<E>>, i: nat): Option<Answer<E>>
    requires i < |steps|
  {
    match Reached(f, p, steps[..i])
    case None => None
    case Some(q) => Reply(q, steps[i])
  }

  lemma {:induction false} RegularFront<E>(f: Format<E>, p: Process<E>, steps: seq<Step<E>>, n: nat)
    requires Regular(f, p, steps) && n <= |steps|
    ensures Regular(f, p, steps[..n])
  {
    TakeAll(steps);
    if n < |steps| {
      RegularFront(f, p, steps[..|steps| - 1], n);
      assert steps[..|steps| - 1][..n] == steps[..n];
    }
  }

  /**
     A service that crashes and restarts is the service without a file: every run of requests, stops
     and crashes starts again each time and holds the records that its requests give in memory.
   */
  lemma {:induction false} RestartsRefine<E(!new)>(
    f: Format<E>, p: Process<E>, es: seq<Envelope<E>>, steps: seq<Step<E>>)
    requires IsSyntax(f.text) && Holding(f, p, es) && Regular(f, p, steps)
    ensures Reached(f, p, steps).Some? && Holding(f, Reached(f, p, steps).value, es + AllAdded(f, p, steps))
    ensures |AllMeant(f, p, steps)| == |steps|
    ensures Reached(f, p, steps).value.records == ServeAll(p.records, AllMeant(f, p, steps))
  {
    if steps == [] {
      TakeAll(es);
    } else {
      var front := steps[..|steps| - 1];
      RestartsRefine(f, p, es, front);
      var q := Reached(f, p, front).value;
      OneStep(f, q, es + AllAdded(f, p, front), steps[|steps| - 1]);
      Associative(es, AllAdded(f, p, front), Added(f, q, steps[|steps| - 1]));
      FrontOfSnoc(AllMeant(f, p, front), Meant(f, q, steps[|steps| - 1]));
    }
  }

  lemma {:induction false} MeantPrefix<E>(f: Format<E>, p: Process<E>, steps: seq<Step<E>>, i: nat)
    requires i < |steps| && |AllMeant(f, p, steps)| == |steps|
    ensures |AllMeant(f, p, steps[..i])| == i && AllMeant(f, p, steps)[..i] == AllMeant(f, p, steps[..i])
    ensures Reached(f, p, steps[..i]).Some?
    ensures AllMeant(f, p, steps)[i] == Meant(f, Reached(f, p, steps[..i]).value, steps[i])
    decreases |steps|
  {
    var front := steps[..|steps| - 1];
    MeantLength(f, p, front);
    assert AllMeant(f, p, steps)[..|steps| - 1] == AllMeant(f, p, front);
    if i < |steps| - 1 {
      MeantPrefix(f, p, front, i);
      assert front[..i] == steps[..i];
    }
  }

  lemma MeantLength<E>(f: Format<E>, p: Process<E>, steps: seq<Step<E>>)
    ensures |AllMeant(f, p, steps)| <= |steps|
  {}

  /**
     Exactly once over restarts: whatever requests, stops and crashes lie between two requests under one
     key, if the first was answered with an entity then the second, when it is answered, gets the same
     entity for the same payload hash and a conflict for another.
   */
  lemma ExactlyOnceOverRestarts<E(!new)>(
    f: Format<E>, p: Process<E>, es: seq<Envelope<E>>, steps: seq<Step<E>>, i: nat, j: nat)
    requires IsSyntax(f.text) && Holding(f, p, es) && OncePerKey(p.records) && Regular(f, p, steps)
    requires i < j < |steps| && steps[i].request.key.Some? && steps[j].request.key == steps[i].request.key
    requires ReplyTo(f, p, steps, i).Some? && ReplyTo(f, p, steps, i).value.Ok?
    ensures ReplyTo(f, p, steps, j)
         == if steps[j].after.Died? then None
            else if steps[j].request.hash == steps[i].request.hash then ReplyTo(f, p, steps, i)
            else Some(Err(KeyConflict))
  {
    SameReply(f, p, es, steps, i);
    SameReply(f, p, es, steps, j);
    ExactlyOnce(p.records, AllMeant(f, p, steps), i, j);
  }

  /** A start gives back what the process holds, whichever generation it loads. */
  ghost predicate ComesBack<E>(f: Format<E>, p: Process<E>) {
    forall from :: Start(f, p.file, p.generations, from)
                == Some(Process(p.file, p.records, MaxSequence(0, p.records), p.generations))
  }

  lemma HoldingComesBack<E(!new)>(f: Format<E>, p: Process<E>, es: seq<Envelope<E>>)
    requires IsSyntax(f.text) && Holding(f, p, es)
    ensures ComesBack(f, p)
  {
    ScanWritten(f, es);
    forall from
      ensures Start(f, p.file, p.generations, from)
           == Some(Process(p.file, p.records, MaxSequence(0, p.records), p.generations))
    {
      StartsAlike(LedgerOf(p), from);
    }
  }

  /** What the file gives back at the next start: every key once, none forgotten, and the answered one among them. */
  lemma KeysSurviveRestarts<E(!new)>(f: Format<E>, p: Process<E>, es: seq<Envelope<E>>, steps: seq<Step<E>>, i: nat)
    requires IsSyntax(f.text) && Holding(f, p, es) && OncePerKey(p.records) && Regular(f, p, steps)
    requires i < |steps| && steps[i].request.key.Some?
    requires ReplyTo(f, p, steps, i).Some? && ReplyTo(f, p, steps, i).value.Ok?
    ensures Reached(f, p, steps).Some?
    ensures var q := Reached(f, p, steps).value;
            var key, hash := steps[i].request.key.value, steps[i].request.hash;
            && ComesBack(f, q)
            && OncePerKey(q.records) && Remembers(p.records, q.records)
            && Answers(q.records, key, hash, ReplyTo(f, p, steps, i).value.value)
            && multiset(KeysOf(q.records))[key] == 1
  {
    var requests := AllMeant(f, p, steps);
    RestartsRefine(f, p, es, steps);
    RunKeepsOncePerKey(p.records, requests);
    SameReply(f, p, es, steps, i);
    TakeAll(requests);
    AnsweredFor(p.records, requests, i, |requests|);
    var q := Reached(f, p, steps).value;
    HoldingComesBack(f, q, es + AllAdded(f, p, steps));
    IndexHoldsKeys(q.records, steps[i].request.key.value);
    DistinctCount(KeysOf(q.records), steps[i].request.key.value);
  }

  lemma SameReply<E(!new)>(f: Format<E>, p: Process<E>, es: seq<Envelope<E>>, steps: seq<Step<E>>, i: nat)
    requires IsSyntax(f.text) && Holding(f, p, es) && Regular(f, p, steps) && i < |steps|
    ensures |AllMeant(f, p, steps)| == |steps|
    ensures AllMeant(f, p, steps)[i].key == steps[i].request.key
              && AllMeant(f, p, steps)[i].hash == steps[i].request.hash
    ensures ReplyTo(f, p, steps, i) ==
              if steps[i].after.Died? then None else AnswerTo(p.records, AllMeant(f, p, steps), i)
  {
    RestartsRefine(f, p, es, steps);
    MeantPrefix(f, p, steps, i);
    RegularFront(f, p, steps, i);
    RestartsRefine(f, p, es, steps[..i]);
  }

  // ---------- A crash and the retry ----------

  lemma RetryServed<E>(records: seq<Record<E>>, r: Request<E>, retry: Request<E>)
    requires OncePerKey(records) && r.key.Some? && Commits(records, r) && (r.fate.Refused? || r.fate.ReplyLost?)
    requires retry.key == r.key && retry.hash == r.hash && retry.allowed && retry.fate.Stored?
    ensures var first := Serve(records, r).0;
            var second := Serve(first, retry);
            && second.1 == Some(Ok(if r.fate.ReplyLost? then r.event else retry.event))
            && OncePerKey(second.0) && r.key.value in IndexOf(second.0)
            && (r.fate.ReplyLost? ==> second.0 == first && !Commits(first, retry))
  {
    FrameIndexed(records, r.sequence, [r.event], Keyed(r));
    ServeKeepsOnce(records, r);
    ServeKeepsOnce(Serve(records, r).0, retry);
  }

  /**
     A keyed request dies at byte `k` of its frame and is repeated. The repetition is answered with the
     entity of the first exactly when all of its body was written, and records one of its own
     otherwise; the key is recorded once in either case.
   */
  lemma RetryAfterCrash<E(!new)>(f: Format<E>, p: Process<E>, es: seq<Envelope<E>>, s: Step<E>, retry: Step<E>)
    requires IsSyntax(f.text) && Holding(f, p, es) && OncePerKey(p.records)
    requires SavesWithoutGap(p, s) && s.after.Died? && s.request.key.Some? && Writes(p.records, s.request)
    requires retry.after.Runs? && retry.request.key == s.request.key && retry.request.hash == s.request.hash
    requires retry.request.allowed && retry.request.fate.Stored?
    ensures var first := Advance(f, p, s);
            var whole := s.after.cut + 1 >= |Frame(f, p, s)|;
            && first.Some?
            && Reply(first.value, retry) == Some(Ok(if whole then s.request.event else retry.request.event))
            && Advance(f, first.value, retry).Some?
            && var q := Advance(f, first.value, retry).value;
            && OncePerKey(q.records) && multiset(KeysOf(q.records))[s.request.key.value] == 1
            && (whole ==> q == first.value.(generations := q.generations))
  {
    OneStep(f, p, es, s);
    var first := Advance(f, p, s).value;
    ServeKeepsOnce(p.records, Meant(f, p, s));
    RetryServed(p.records, Meant(f, p, s), Taken(first, retry));
    var q := Advance(f, first, retry).value;
    IndexHoldsKeys(q.records, s.request.key.value);
    DistinctCount(KeysOf(q.records), s.request.key.value);
    TakeAll(first.file);
  }

  /**
     Why the newline is the exception: a process dies in one commit, and the next one answers a second
     request and is stopped. The answer is still on record after the start if and only if the crash
     did not leave the first frame without its newline. If it did, the first request is forgotten too,
     unless the start loads a snapshot saved between the two.
   */
  lemma AnswerSurvivesIff<E(!new)>(f: Format<E>, p: Process<E>, es: seq<Envelope<E>>, s: Step<E>, t: Step<E>)
    requires IsSyntax(f.text) && Holding(f, p, es) && SavesWithoutGap(p, s)
    requires s.after.Died? && Writes(p.records, s.request)
    requires Advance(f, p, s).Some? && Writes(Advance(f, p, s).value.records, t.request) && t.after.Stopped?
    ensures var first := Advance(f, p, s).value;
            var second := Advance(f, first, t);
            && second.Some?
            && (second.value.records == Serve(first.records, Taken(first, t)).0 <==> !TornAtNewline(f, p, s))
            && (TornAtNewline(f, p, s) ==>
                  second.value.records == if LoadsOwn(first, t) then first.records else p.records)
  {
    OneStep(f, p, es, s);
    var first := Advance(f, p, s).value;
    DiedStart(f, p, es, s);
    if TornAtNewline(f, p, s) {
      Forgotten(f, p, es, s, t);
    } else {
      OneStep(f, first, es + Added(f, p, s), t);
    }
  }

  /** The start behind the step loads the snapshot the step saved. */
  predicate LoadsOwn<E>(p: Process<E>, s: Step<E>) {
    s.saves && s.after.Stopped? && s.after.from == Some(|p.generations|)
  }

  lemma Forgotten<E(!new)>(f: Format<E>, p: Process<E>, es: seq<Envelope<E>>, s: Step<E>, t: Step<E>)
    requires IsSyntax(f.text) && Holding(f, p, es) && SavesWithoutGap(p, s)
    requires s.after.Died? && Writes(p.records, s.request)
    requires Advance(f, p, s).Some? && Writes(Advance(f, p, s).value.records, t.request) && t.after.Stopped?
    requires TornAtNewline(f, p, s)
    ensures var first := Advance(f, p, s).value;
            && Advance(f, first, t).Some?
            && Advance(f, first, t).value.records == if LoadsOwn(first, t) then first.records else p.records
  {
    var first := Advance(f, p, s).value;
    CutStart(f, p, es, s, s.after.cut, s.after.from);
    GluedReload(f, p, es, s, t);
    if LoadsOwn(first, t) {
      OwnSnapshotAhead(p.records, KeyedFrame(f, Taken(p, s), s.commitId).records, first.sequence);
      assert Chosen(Generations(first, t), t.after.from) == Some(Snapshot(first.sequence, first.records));
    } else {
      EarlierSnapshot(p, s, first, t);
    }
  }

  lemma EarlierSnapshot<E>(p: Process<E>, s: Step<E>, first: Process<E>, t: Step<E>)
    requires Snapshots.Inv(LedgerOf(p)) && SavesWithoutGap(p, s) && first.generations == Generations(p, s)
    requires t.after.Stopped? && !LoadsOwn(first, t)
    ensures LoadedRecords(Chosen(Generations(first, t), t.after.from), p.records) == p.records
  {
    assert Chosen(Generations(first, t), t.after.from) == Chosen(first.generations, t.after.from);
    SavedInv(p, s);
    StartsAlike(LedgerOf(p.(generations := Generations(p, s))), t.after.from);
  }

  lemma OwnSnapshotAhead<E>(records: seq<Record<E>>, made: seq<Record<E>>, sequence: int)
    requires sequence == MaxSequence(0, records + made)
    ensures LoadedRecords(Some(Snapshot(sequence, records + made)), records) == records + made
  {
    MaxSequenceAppend(0, records, made);
    Snapshots.MaxSequenceBase(MaxSequence(0, records), made);
    Snapshots.NewerNone(records, sequence);
    TakeAll(records + made);
  }

  lemma GluedReload<E(!new)>(f: Format<E>, p: Process<E>, es: seq<Envelope<E>>, s: Step<E>, t: Step<E>)
    requires IsSyntax(f.text) && Holding(f, p, es) && s.after.Died? && Writes(p.records, s.request)
    requires Advance(f, p, s).Some? && Writes(Advance(f, p, s).value.records, t.request)
    requires TornAtNewline(f, p, s)
    ensures var first := Advance(f, p, s).value;
            && first.generations == Generations(p, s)
            && Reload(f, first.file + Frame(f, first, t)) == Some((p.file, p.records))
  {
    var first := Advance(f, p, s).value;
    var e, g := KeyedFrame(f, Taken(p, s), s.commitId), KeyedFrame(f, Taken(first, t), t.commitId);
    AppendedFrameReadable(f, p.sequence, [s.request.event], map[], Keyed(Taken(p, s)), s.commitId);
    AppendedFrameReadable(f, first.sequence, [t.request.event], map[], Keyed(Taken(first, t)), t.commitId);
    CutCommit(f, es, e, s.after.cut);
    GluedCommit(f, es, e, g, []);
    TakeAll(first.file + Written(f, g));
  }
}

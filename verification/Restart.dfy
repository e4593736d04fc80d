/** From bytes to state: what a restart shows after a crash inside any commit. */
module Restart {
  import opened Prelude
  import opened Journal
  import opened Recovery
  import opened Domain
  import opened Projection
  import opened AttemptHistory
  import opened Leases
  import opened EventText

  /** The event log the store replays. */
  function EventsIn(records: seq<Record<Event>>): seq<Event> {
    if records == [] then []
    else
      var r := records[|records| - 1];
      EventsIn(records[..|records| - 1]) + if r.EventRecord? then [r.event] else []
  }

  lemma EventsOfFrame(records: seq<Record<Event>>, start: int, e: Event, idem: Option<Idempotency<Event>>)
    ensures EventsIn(records + MakeRecords(start, [e], idem)) == EventsIn(records) + [e]
  {
    var made := MakeRecords(start, [e], idem);
    assert made[0] == EventRecord(start + 1, e);
    assert (records + [made[0]])[..|records|] == records;
    if idem.Some? {
      assert records + made == (records + [made[0]]) + [made[1]];
      assert ((records + [made[0]]) + [made[1]])[..|records| + 1] == records + [made[0]];
    } else {
      assert made == [made[0]];
    }
  }

  /** What a run's log must be for every guarantee of the services to hold of it. */
  ghost predicate GoodLog(log: seq<Event>) {
    SafeLog(log) && CapacityLog(log) && LeaseLog(log)
  }

  /** Integration, queued or ordered, leaves every other guarantee of the log alone. */
  lemma {:induction false} IntegrationKeepsGood(before: seq<Event>, after: seq<Event>)
    requires GoodLog(before) && AppendsIntegration(before, after)
    ensures GoodLog(after)
    decreases |after|
  {
    if |after| > |before| {
      var front, e := after[..|after| - 1], after[|after| - 1];
      IntegrationKeepsGood(before, front);
      GoodReplay(front);
      FrontAndLast(after);
      SafeLogSnoc(front, e);
      LeaseLogSnoc(front, e);
      FrontOfSnoc(front, e);
    } else {
      assert after == before;
    }
  }

  /**
     The process dies after any number of bytes of the commit of `e`. The next start reads the log
     without `e` or with it, and in the state it replays no session is over its cap, no two active
     leases overlap, and the attempts are those of a safe run.
   */
  lemma CrashInsideCommit(
    f: Format<Event>, es: seq<Envelope<Event>>, sequence: int, e: Event, versions: map<string, int>,
    idem: Option<Idempotency<Event>>, commitId: string, k: nat)
    requires IsSyntax(f.text) && Recovery.AllOk(f, es)
    requires var w := Written(f, MakeEnvelope(f, sequence, [e], versions, idem, commitId)); k <= |w|
    requires GoodLog(EventsIn(RecordsOf(es)) + [e])
    ensures var file := WrittenAll(f, es) + Written(f, MakeEnvelope(f, sequence, [e], versions, idem, commitId))[..k];
            && Reload(f, file).Some?
            && var log := EventsIn(Reload(f, file).value.1);
            && (log == EventsIn(RecordsOf(es)) || log == EventsIn(RecordsOf(es)) + [e])
            && GoodLog(log)
            && Replay(log).Some? && StateOk(Replay(log).value) && WithinCapacity(Replay(log).value)
            && LeasesOk(Replay(log).value.leases)
  {
    var envelope := MakeEnvelope(f, sequence, [e], versions, idem, commitId);
    var log := EventsIn(RecordsOf(es));
    AppendedFrameReadable(f, sequence, [e], versions, idem, commitId);
    CutCommit(f, es, envelope, k);
    EventsOfFrame(RecordsOf(es), sequence, e, idem);
    assert (log + [e])[..|log|] == log;
    GoodReplay(log);
    GoodReplay(log + [e]);
  }

  /** A log written one event a frame, as `commit` writes it. */
  function FrameEach(f: Format<Event>, log: seq<Event>): seq<Envelope<Event>> {
    if log == [] then []
    else
      FrameEach(f, log[..|log| - 1]) + [MakeEnvelope(f, |log| - 1, [log[|log| - 1]], map[], None, "")]
  }

  lemma {:induction false} FramesHoldLog(f: Format<Event>, log: seq<Event>)
    ensures Recovery.AllOk(f, FrameEach(f, log)) && EventsIn(RecordsOf(FrameEach(f, log))) == log
  {
    if log != [] {
      var front, e := log[..|log| - 1], log[|log| - 1];
      FramesHoldLog(f, front);
      AppendedFrameReadable(f, |log| - 1, [e], map[], None, "");
      FrontOfSnoc(FrameEach(f, front), MakeEnvelope(f, |log| - 1, [e], map[], None, ""));
      EventsOfFrame(RecordsOf(FrameEach(f, front)), |log| - 1, e, None);
      FrontAndLast(log);
    }
  }

  /** The file left by a crash after `k` bytes of the commit of `e` behind a log. */
  function CrashedFile(f: Format<Event>, log: seq<Event>, e: Event, k: nat): bytes {
    var w := Written(f, MakeEnvelope(f, |log|, [e], map[], None, ""));
    WrittenAll(f, FrameEach(f, log)) + w[..Recovery.min(k, |w|)]
  }

  /**
     The same with nothing assumed about the syntax: in a format for the store's events, every good log
     with any of its bytes cut off the last commit starts again as the log without the last event or
     with it, in a state that keeps every guarantee.
   */
  lemma EveryGoodLogRestarts(
    size: seq<Record<Event>> -> int, checksum: Summary, hash: Summary, log: seq<Event>, e: Event, k: nat)
    requires GoodLog(log + [e])
    ensures var f := EventFormat(size, checksum, hash);
            var start := Reload(f, CrashedFile(f, log, e, k));
            && start.Some?
            && var read := EventsIn(start.value.1);
            && (read == log || read == log + [e])
            && GoodLog(read)
            && Replay(read).Some? && StateOk(Replay(read).value) && WithinCapacity(Replay(read).value)
            && LeasesOk(Replay(read).value.leases)
  {
    var f := EventFormat(size, checksum, hash);
    var w := Written(f, MakeEnvelope(f, |log|, [e], map[], None, ""));
    FramesHoldLog(f, log);
    CrashInsideCommit(f, FrameEach(f, log), |log|, e, map[], None, "", Recovery.min(k, |w|));
  }

  lemma GoodReplay(log: seq<Event>)
    requires GoodLog(log)
    ensures Replay(log).Some? && StateOk(Replay(log).value) && WithinCapacity(Replay(log).value)
    ensures LeasesOk(Replay(log).value.leases)
  {
    SafeLogReplays(log);
    CapacityOverRuns(log);
    LeasesStayDisjoint(log);
  }
}

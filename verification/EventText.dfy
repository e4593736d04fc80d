/** How journal lines over the store's events are coded, so that the assumptions on the line syntax are met for them. */
module EventText {
  import opened Prelude
  import opened Regions
  import opened Domain
  import opened Journal
  import opened Encoding

  // ---------- Regions ----------

  function KindRank(k: ResourceKind): nat {
    match k case File => 0 case Directory => 1 case Database => 2 case External => 3
  }

  function SelectorRank(t: SelectorType): nat {
    match t
    case Symbol => 0 case AstNode => 1 case PathPrefix => 2 case RowKeys => 3 case KeyRange => 4
    case Partition => 5 case JsonPointer => 6 case ProviderSubresource => 7 case WholeResource => 8
  }

  function NumberCode(n: Number, rest: Code): Code {
    IntCode(n.numerator, IntCode(n.denominator, rest))
  }

  function ItemCode(i: Item, rest: Code): Code {
    StringCode(i.shown, OptionCode(NumberCode, i.number, BoolCode(i.numeric, rest)))
  }

  function ValueCode(v: Value, rest: Code): Code {
    match v
    case Text(t) => Cons(0, StringCode(t, rest))
    case Scalar(i) => Cons(1, ItemCode(i, rest))
    case List(items) => Cons(2, SeqCode(ItemCode, items, rest))
    case KeyDict(items) => Cons(3, SeqCode(ItemCode, items, rest))
    case Span(a, b) => Cons(4, ItemCode(a, ItemCode(b, rest)))
  }

  function RegionCode(r: Region, rest: Code): Code {
    Cons(KindRank(r.kind), StringCode(r.resourceId, Cons(SelectorRank(r.selectorType),
      ValueCode(r.value, StringCode(r.baseRevision, rest)))))
  }

  lemma NumberExact()
    ensures Exact(NumberCode)
  {
    forall a, b, s, t | NumberCode(a, s) == NumberCode(b, t) ensures a == b && s == t {
      IntCancel(a.numerator, b.numerator, IntCode(a.denominator, s), IntCode(b.denominator, t));
      IntCancel(a.denominator, b.denominator, s, t);
    }
  }

  lemma ItemCancel(a: Item, b: Item, s: Code, t: Code)
    requires ItemCode(a, s) == ItemCode(b, t)
    ensures a == b && s == t
  {
    NumberExact();
    StringCancel(a.shown, b.shown, OptionCode(NumberCode, a.number, BoolCode(a.numeric, s)),
                 OptionCode(NumberCode, b.number, BoolCode(b.numeric, t)));
    OptionCancel(NumberCode, a.number, b.number, BoolCode(a.numeric, s), BoolCode(b.numeric, t));
    BoolCancel(a.numeric, b.numeric, s, t);
  }

  lemma ItemExact()
    ensures Exact(ItemCode)
  {
    forall a, b, s, t | ItemCode(a, s) == ItemCode(b, t) ensures a == b && s == t { ItemCancel(a, b, s, t); }
  }

  lemma ValueCancel(a: Value, b: Value, s: Code, t: Code)
    requires ValueCode(a, s) == ValueCode(b, t)
    ensures a == b && s == t
  {
    ItemExact();
    assert ValueCode(a, s)[0] == ValueCode(b, t)[0];
    match (a, b) {
      case (Text(x), Text(y)) =>
        ConsCancel(0, 0, StringCode(x, s), StringCode(y, t));
        StringCancel(x, y, s, t);
      case (Scalar(i), Scalar(j)) =>
        ConsCancel(1, 1, ItemCode(i, s), ItemCode(j, t));
        ItemCancel(i, j, s, t);
      case (List(x), List(y)) =>
        ConsCancel(2, 2, SeqCode(ItemCode, x, s), SeqCode(ItemCode, y, t));
        SeqCancel(ItemCode, x, y, s, t);
      case (KeyDict(x), KeyDict(y)) =>
        ConsCancel(3, 3, SeqCode(ItemCode, x, s), SeqCode(ItemCode, y, t));
        SeqCancel(ItemCode, x, y, s, t);
      case (Span(i, j), Span(k, l)) =>
        ConsCancel(4, 4, ItemCode(i, ItemCode(j, s)), ItemCode(k, ItemCode(l, t)));
        ItemCancel(i, k, ItemCode(j, s), ItemCode(l, t));
        ItemCancel(j, l, s, t);
      case _ =>
    }
  }

  lemma RegionCancel(a: Region, b: Region, s: Code, t: Code)
    requires RegionCode(a, s) == RegionCode(b, t)
    ensures a == b && s == t
  {
    var s1, t1 := StringCode(a.baseRevision, s), StringCode(b.baseRevision, t);
    var s2, t2 := ValueCode(a.value, s1), ValueCode(b.value, t1);
    var s3, t3 := Cons(SelectorRank(a.selectorType), s2), Cons(SelectorRank(b.selectorType), t2);
    ConsCancel(KindRank(a.kind), KindRank(b.kind), StringCode(a.resourceId, s3), StringCode(b.resourceId, t3));
    StringCancel(a.resourceId, b.resourceId, s3, t3);
    ConsCancel(SelectorRank(a.selectorType), SelectorRank(b.selectorType), s2, t2);
    ValueCancel(a.value, b.value, s1, t1);
    StringCancel(a.baseRevision, b.baseRevision, s, t);
  }

  // ---------- Sessions, leases, attempts ----------

  function StatusRank(s: AttemptStatus): nat {
    match s
    case Queued => 0 case Claimed => 1 case Running => 2 case WaitingApproval => 3 case PauseRequested => 4
    case CancelRequested => 5 case Paused => 6 case Succeeded => 7 case Partial => 8 case Blocked => 9
    case Failed => 10 case Cancelled => 11
  }

  function LeaseRank(s: LeaseStatus): nat {
    match s case Active => 0 case Released => 1 case Expired => 2 case Revoked => 3
  }

  function IntegrationRank(s: IntegrationStatus): nat {
    match s
    case IntegrationQueued => 0 case IntegrationRunning => 1 case Integrated => 2 case Conflicted => 3
    case Rejected => 4
  }

  function TextCodes(xs: seq<Option<string>>, rest: Code): Code {
    SeqCode(OptionalText, xs, rest)
  }

  function OptionalText(o: Option<string>, rest: Code): Code {
    OptionCode(StringCode, o, rest)
  }

  function OptionalInt(o: Option<int>, rest: Code): Code {
    OptionCode(IntCode, o, rest)
  }

  lemma OptionalIntCancel(a: Option<int>, b: Option<int>, s: Code, t: Code)
    requires OptionalInt(a, s) == OptionalInt(b, t)
    ensures a == b && s == t
  {
    IntExact();
    OptionCancel(IntCode, a, b, s, t);
  }

  lemma OptionalTextCancel(a: Option<string>, b: Option<string>, s: Code, t: Code)
    requires OptionalText(a, s) == OptionalText(b, t)
    ensures a == b && s == t
  {
    StringExact();
    OptionCancel(StringCode, a, b, s, t);
  }

  lemma TextsCancel(a: seq<Option<string>>, b: seq<Option<string>>, s: Code, t: Code)
    requires TextCodes(a, s) == TextCodes(b, t)
    ensures a == b && s == t
  {
    assert Exact(OptionalText) by {
      forall x, y, u, v | OptionalText(x, u) == OptionalText(y, v) ensures x == y && u == v {
        OptionalTextCancel(x, y, u, v);
      }
    }
    SeqCancel(OptionalText, a, b, s, t);
  }

  function AttemptTexts(a: WorkerAttempt): seq<Option<string>> {
    [Some(a.id), Some(a.workerSessionId), Some(a.childTaskId), a.workspace, a.request, a.resumedFrom,
     a.recoveryCheckpoint, a.claimToken, a.checkpoint]
  }

  function AttemptCode(a: WorkerAttempt, rest: Code): Code {
    TextCodes(AttemptTexts(a), Cons(StatusRank(a.status), IntCode(a.version, IntCode(a.updatedAt,
      OptionalInt(a.claimExpires, BoolCode(a.safeToResume, rest))))))
  }

  lemma AttemptCancel(a: WorkerAttempt, b: WorkerAttempt, s: Code, t: Code)
    requires AttemptCode(a, s) == AttemptCode(b, t)
    ensures a == b && s == t
  {
    var s1, t1 := BoolCode(a.safeToResume, s), BoolCode(b.safeToResume, t);
    var s2, t2 := OptionalInt(a.claimExpires, s1), OptionalInt(b.claimExpires, t1);
    var s3, t3 := IntCode(a.updatedAt, s2), IntCode(b.updatedAt, t2);
    var s4, t4 := IntCode(a.version, s3), IntCode(b.version, t3);
    TextsCancel(AttemptTexts(a), AttemptTexts(b), Cons(StatusRank(a.status), s4), Cons(StatusRank(b.status), t4));
    ConsCancel(StatusRank(a.status), StatusRank(b.status), s4, t4);
    IntCancel(a.version, b.version, s3, t3);
    IntCancel(a.updatedAt, b.updatedAt, s2, t2);
    OptionalIntCancel(a.claimExpires, b.claimExpires, s1, t1);
    BoolCancel(a.safeToResume, b.safeToResume, s, t);
    SameAttemptTexts(a, b);
  }

  lemma SameAttemptTexts(a: WorkerAttempt, b: WorkerAttempt)
    requires AttemptTexts(a) == AttemptTexts(b)
    ensures a.id == b.id && a.workerSessionId == b.workerSessionId && a.childTaskId == b.childTaskId
    ensures a.workspace == b.workspace && a.request == b.request && a.resumedFrom == b.resumedFrom
    ensures a.recoveryCheckpoint == b.recoveryCheckpoint && a.claimToken == b.claimToken && a.checkpoint == b.checkpoint
  {
    var x, y := AttemptTexts(a), AttemptTexts(b);
    assert x[0] == y[0] && x[1] == y[1] && x[2] == y[2] && x[3] == y[3] && x[4] == y[4] && x[5] == y[5];
    assert x[6] == y[6] && x[7] == y[7] && x[8] == y[8];
  }

  function LeaseCode(l: WriterLease, rest: Code): Code {
    TextCodes([Some(l.id), Some(l.childTaskId), Some(l.ownerAgentId)], RegionCode(l.region, Cons(LeaseRank(l.status),
      IntCode(l.version, IntCode(l.acquiredAt, OptionalInt(l.expiresAt, rest))))))
  }

  lemma LeaseCancel(a: WriterLease, b: WriterLease, s: Code, t: Code)
    requires LeaseCode(a, s) == LeaseCode(b, t)
    ensures a == b && s == t
  {
    var s1, t1 := OptionalInt(a.expiresAt, s), OptionalInt(b.expiresAt, t);
    var s2, t2 := IntCode(a.acquiredAt, s1), IntCode(b.acquiredAt, t1);
    var s3, t3 := IntCode(a.version, s2), IntCode(b.version, t2);
    var s4, t4 := Cons(LeaseRank(a.status), s3), Cons(LeaseRank(b.status), t3);
    var x: seq<Option<string>> := [Some(a.id), Some(a.childTaskId), Some(a.ownerAgentId)];
    var y: seq<Option<string>> := [Some(b.id), Some(b.childTaskId), Some(b.ownerAgentId)];
    TextsCancel(x, y, RegionCode(a.region, s4), RegionCode(b.region, t4));
    assert x[0] == y[0] && x[1] == y[1] && x[2] == y[2];
    RegionCancel(a.region, b.region, s4, t4);
    ConsCancel(LeaseRank(a.status), LeaseRank(b.status), s3, t3);
    IntCancel(a.version, b.version, s2, t2);
    IntCancel(a.acquiredAt, b.acquiredAt, s1, t1);
    OptionalIntCancel(a.expiresAt, b.expiresAt, s, t);
  }

  function IntegrationTexts(a: IntegrationAttempt): seq<Option<string>> {
    [Some(a.id), a.parentTaskId, Some(a.clientRef), a.ownerId, a.baseRevision, a.code, a.message, a.revision]
  }

  function IntegrationCode(a: IntegrationAttempt, rest: Code): Code {
    TextCodes(IntegrationTexts(a), Cons(IntegrationRank(a.status), IntCode(a.version, IntCode(a.orderIndex,
      IntCode(a.createdAt, IntCode(a.updatedAt, rest))))))
  }

  lemma IntegrationCancel(a: IntegrationAttempt, b: IntegrationAttempt, s: Code, t: Code)
    requires IntegrationCode(a, s) == IntegrationCode(b, t)
    ensures a == b && s == t
  {
    var s1, t1 := IntCode(a.updatedAt, s), IntCode(b.updatedAt, t);
    var s2, t2 := IntCode(a.createdAt, s1), IntCode(b.createdAt, t1);
    var s3, t3 := IntCode(a.orderIndex, s2), IntCode(b.orderIndex, t2);
    var s4, t4 := IntCode(a.version, s3), IntCode(b.version, t3);
    var x, y := IntegrationTexts(a), IntegrationTexts(b);
    TextsCancel(x, y, Cons(IntegrationRank(a.status), s4), Cons(IntegrationRank(b.status), t4));
    assert x[0] == y[0] && x[1] == y[1] && x[2] == y[2] && x[3] == y[3];
    assert x[4] == y[4] && x[5] == y[5] && x[6] == y[6] && x[7] == y[7];
    ConsCancel(IntegrationRank(a.status), IntegrationRank(b.status), s4, t4);
    IntCancel(a.version, b.version, s3, t3);
    IntCancel(a.orderIndex, b.orderIndex, s2, t2);
    IntCancel(a.createdAt, b.createdAt, s1, t1);
    IntCancel(a.updatedAt, b.updatedAt, s, t);
  }

  // ---------- Events ----------

  function WorkerKindRank(k: WorkerEventKind): nat {
    match k
    case WorkerQueued => 0 case WorkerRequestBound => 1 case WorkerClaimed => 2 case WorkerHeartbeat => 3
    case WorkerRecovered => 4 case WorkerRequeued => 5 case WorkerBlocked => 6 case WorkerStarted => 7
    case WorkerStopped => 8 case WorkerCancelFailed => 9 case WorkerCheckpointed => 10 case WorkerTerminalAck => 11
    case WorkerHandedOff => 12 case WorkerPaused => 13 case WorkerPauseRequested => 14
    case WorkerCancelRequested => 15
  }

  function LeaseKindRank(k: LeaseEventKind): nat {
    match k case LeaseAcquired => 0 case LeaseHeartbeat => 1 case LeaseExpired => 2
  }

  function IntegrationKindRank(k: IntegrationEventKind): nat {
    match k
    case AttemptQueued => 0 case AttemptStarted => 1 case AttemptRequeued => 2 case AttemptCompleted => 3
    case AttemptConflict => 4 case AttemptBlocked => 5
  }

  function EventCode(e: Event, rest: Code): Code {
    match e
    case SessionCreated(s) => Cons(0, StringCode(s.id, IntCode(s.maxActiveWorkers, rest)))
    case WorkerEvent(k, a, sid) => Cons(1, Cons(WorkerKindRank(k), AttemptCode(a, OptionalText(sid, rest))))
    case LeaseRecorded(k, l) => Cons(2, Cons(LeaseKindRank(k), LeaseCode(l, rest)))
    case LeaseReleased(id) => Cons(3, StringCode(id, rest))
    case IntegrationEvent(k, a) => Cons(4, Cons(IntegrationKindRank(k), IntegrationCode(a, rest)))
    case OtherEvent(name) => Cons(5, StringCode(name, rest))
  }

  lemma EventCancel(a: Event, b: Event, s: Code, t: Code)
    requires EventCode(a, s) == EventCode(b, t)
    ensures a == b && s == t
  {
    assert EventCode(a, s)[0] == EventCode(b, t)[0];
    assert EventCode(a, s)[1..] == EventCode(b, t)[1..];
    match (a, b) {
      case (SessionCreated(x), SessionCreated(y)) =>
        var s1, t1 := IntCode(x.maxActiveWorkers, s), IntCode(y.maxActiveWorkers, t);
        ConsCancel(0, 0, StringCode(x.id, s1), StringCode(y.id, t1));
        StringCancel(x.id, y.id, s1, t1);
        IntCancel(x.maxActiveWorkers, y.maxActiveWorkers, s, t);
      case (WorkerEvent(k, x, i), WorkerEvent(l, y, j)) =>
        WorkerCancel(a, b, s, t);
      case (LeaseRecorded(k, x), LeaseRecorded(l, y)) =>
        ConsCancel(2, 2, Cons(LeaseKindRank(k), LeaseCode(x, s)), Cons(LeaseKindRank(l), LeaseCode(y, t)));
        ConsCancel(LeaseKindRank(k), LeaseKindRank(l), LeaseCode(x, s), LeaseCode(y, t));
        LeaseCancel(x, y, s, t);
      case (LeaseReleased(x), LeaseReleased(y)) =>
        ConsCancel(3, 3, StringCode(x, s), StringCode(y, t));
        StringCancel(x, y, s, t);
      case (IntegrationEvent(k, x), IntegrationEvent(l, y)) =>
        ConsCancel(4, 4, Cons(IntegrationKindRank(k), IntegrationCode(x, s)),
                   Cons(IntegrationKindRank(l), IntegrationCode(y, t)));
        ConsCancel(IntegrationKindRank(k), IntegrationKindRank(l), IntegrationCode(x, s), IntegrationCode(y, t));
        IntegrationCancel(x, y, s, t);
      case (OtherEvent(x), OtherEvent(y)) =>
        ConsCancel(5, 5, StringCode(x, s), StringCode(y, t));
        StringCancel(x, y, s, t);
      case _ =>
    }
  }

  lemma WorkerCancel(a: Event, b: Event, s: Code, t: Code)
    requires a.WorkerEvent? && b.WorkerEvent? && EventCode(a, s) == EventCode(b, t)
    ensures a == b && s == t
  {
    var s1, t1 := OptionalText(a.sessionId, s), OptionalText(b.sessionId, t);
    var s2, t2 := AttemptCode(a.attempt, s1), AttemptCode(b.attempt, t1);
    ConsCancel(1, 1, Cons(WorkerKindRank(a.workerKind), s2), Cons(WorkerKindRank(b.workerKind), t2));
    ConsCancel(WorkerKindRank(a.workerKind), WorkerKindRank(b.workerKind), s2, t2);
    AttemptCancel(a.attempt, b.attempt, s1, t1);
    OptionalTextCancel(a.sessionId, b.sessionId, s, t);
  }

  lemma EventsExact()
    ensures Exact(EventCode)
  {
    forall a, b, s, t | EventCode(a, s) == EventCode(b, t) ensures a == b && s == t { EventCancel(a, b, s, t); }
  }

  // ---------- Journal lines, over any events that can be coded ----------

  function RecordCode<E>(w: Writer<E>, r: Record<E>, rest: Code): Code {
    match r
    case EventRecord(n, e) => Cons(0, IntCode(n, w(e, rest)))
    case IdempotencyRecord(n, key, hash, response) =>
      Cons(1, IntCode(n, StringCode(key.0, StringCode(key.1, StringCode(key.2, StringCode(hash,
        SeqCode(w, response, rest)))))))
  }

  lemma RecordCancel<E(!new)>(w: Writer<E>, a: Record<E>, b: Record<E>, s: Code, t: Code)
    requires Exact(w) && RecordCode(w, a, s) == RecordCode(w, b, t)
    ensures a == b && s == t
  {
    assert RecordCode(w, a, s)[0] == RecordCode(w, b, t)[0];
    if a.EventRecord? {
      ConsCancel(0, 0, IntCode(a.sequence, w(a.event, s)), IntCode(b.sequence, w(b.event, t)));
      IntCancel(a.sequence, b.sequence, w(a.event, s), w(b.event, t));
    } else {
      var s1, t1 := SeqCode(w, a.response, s), SeqCode(w, b.response, t);
      var s2, t2 := StringCode(a.requestHash, s1), StringCode(b.requestHash, t1);
      var s3, t3 := StringCode(a.key.2, s2), StringCode(b.key.2, t2);
      var s4, t4 := StringCode(a.key.1, s3), StringCode(b.key.1, t3);
      var s5, t5 := StringCode(a.key.0, s4), StringCode(b.key.0, t4);
      ConsCancel(1, 1, IntCode(a.sequence, s5), IntCode(b.sequence, t5));
      IntCancel(a.sequence, b.sequence, s5, t5);
      StringCancel(a.key.0, b.key.0, s4, t4);
      StringCancel(a.key.1, b.key.1, s3, t3);
      StringCancel(a.key.2, b.key.2, s2, t2);
      StringCancel(a.requestHash, b.requestHash, s1, t1);
      SeqCancel(w, a.response, b.response, s, t);
    }
  }

  function RecordsCode<E>(w: Writer<E>, rs: seq<Record<E>>, rest: Code): Code {
    SeqCode((r: Record<E>, more: Code) => RecordCode(w, r, more), rs, rest)
  }

  lemma RecordsCancel<E(!new)>(w: Writer<E>, a: seq<Record<E>>, b: seq<Record<E>>, s: Code, t: Code)
    requires Exact(w) && RecordsCode(w, a, s) == RecordsCode(w, b, t)
    ensures a == b && s == t
  {
    var each := (r: Record<E>, more: Code) => RecordCode(w, r, more);
    forall x, y, u, v | each(x, u) == each(y, v) ensures x == y && u == v { RecordCancel(w, x, y, u, v); }
    SeqCancel(each, a, b, s, t);
  }

  /** A map written out, entry by entry, in an order that depends on the map alone. */
  ghost function Entries(m: map<string, int>): (es: seq<(string, int)>)
    ensures Collected(es) == m
    decreases |m|
  {
    if m == map[] then [] else
      var k :| k in m;
      var rest := m - {k};
      assert rest[k := m[k]] == m;
      [(k, m[k])] + Entries(rest)
  }

  function Collected(es: seq<(string, int)>): map<string, int> {
    if es == [] then map[] else Collected(es[1..])[es[0].0 := es[0].1]
  }

  function EntryCode(e: (string, int), rest: Code): Code {
    StringCode(e.0, IntCode(e.1, rest))
  }

  ghost function MapCode(m: map<string, int>, rest: Code): Code {
    SeqCode(EntryCode, Entries(m), rest)
  }

  lemma MapCancel(a: map<string, int>, b: map<string, int>, s: Code, t: Code)
    requires MapCode(a, s) == MapCode(b, t)
    ensures a == b && s == t
  {
    forall x, y, u, v | EntryCode(x, u) == EntryCode(y, v) ensures x == y && u == v {
      StringCancel(x.0, y.0, IntCode(x.1, u), IntCode(y.1, v));
      IntCancel(x.1, y.1, u, v);
    }
    SeqCancel(EntryCode, Entries(a), Entries(b), s, t);
  }

  ghost function EnvelopeCode<E>(w: Writer<E>, e: Envelope<E>, rest: Code): Code {
    IntCode(e.formatVersion, IntCode(e.sequenceStart, IntCode(e.sequenceEnd, IntCode(e.length,
      TextCodes([Some(e.commitId), Some(e.payloadHash), Some(e.checksum)],
        MapCode(e.expectedVersions, RecordsCode(w, e.records, rest)))))))
  }

  lemma EnvelopeCancel<E(!new)>(w: Writer<E>, a: Envelope<E>, b: Envelope<E>, s: Code, t: Code)
    requires Exact(w) && EnvelopeCode(w, a, s) == EnvelopeCode(w, b, t)
    ensures a == b && s == t
  {
    var s1, t1 := RecordsCode(w, a.records, s), RecordsCode(w, b.records, t);
    var s2, t2 := MapCode(a.expectedVersions, s1), MapCode(b.expectedVersions, t1);
    var x: seq<Option<string>> := [Some(a.commitId), Some(a.payloadHash), Some(a.checksum)];
    var y: seq<Option<string>> := [Some(b.commitId), Some(b.payloadHash), Some(b.checksum)];
    var s3, t3 := TextCodes(x, s2), TextCodes(y, t2);
    var s4, t4 := IntCode(a.length, s3), IntCode(b.length, t3);
    var s5, t5 := IntCode(a.sequenceEnd, s4), IntCode(b.sequenceEnd, t4);
    var s6, t6 := IntCode(a.sequenceStart, s5), IntCode(b.sequenceStart, t5);
    IntCancel(a.formatVersion, b.formatVersion, s6, t6);
    IntCancel(a.sequenceStart, b.sequenceStart, s5, t5);
    IntCancel(a.sequenceEnd, b.sequenceEnd, s4, t4);
    IntCancel(a.length, b.length, s3, t3);
    TextsCancel(x, y, s2, t2);
    assert x[0] == y[0] && x[1] == y[1] && x[2] == y[2];
    MapCancel(a.expectedVersions, b.expectedVersions, s1, t1);
    RecordsCancel(w, a.records, b.records, s, t);
  }

  ghost function TextCode<E>(w: Writer<E>, text: Journal.Text<E>): Code {
    match text
    case Object(e) => Cons(0, EnvelopeCode(w, e, []))
    case Legacy(rs) => Cons(1, RecordsCode(w, rs, []))
  }

  /** The line syntax of a journal over events that can be coded. */
  ghost function LineSyntax<E(!new)>(w: Writer<E>): Syntax<Journal.Text<E>> {
    SyntaxOf((text: Journal.Text<E>) => TextCode(w, text))
  }

  lemma LinesHaveSyntax<E(!new)>(w: Writer<E>)
    requires Exact(w)
    ensures IsSyntax(LineSyntax(w))
  {
    var code := (text: Journal.Text<E>) => TextCode(w, text);
    forall a, b | code(a) == code(b) ensures a == b {
      assert TextCode(w, a)[0] == TextCode(w, b)[0];
      if a.Object? {
        ConsCancel(0, 0, EnvelopeCode(w, a.envelope, []), EnvelopeCode(w, b.envelope, []));
        EnvelopeCancel(w, a.envelope, b.envelope, [], []);
      } else {
        ConsCancel(1, 1, RecordsCode(w, a.records, []), RecordsCode(w, b.records, []));
        RecordsCancel(w, a.records, b.records, [], []);
      }
    }
    SyntaxExists(code);
  }

  type Summary = seq<Record<Event>> -> string

  /** Formats for the store's own events, whatever size, checksum and hash are: nothing about the syntax is assumed. */
  ghost function EventFormat(size: seq<Record<Event>> -> int, checksum: Summary, hash: Summary): (f: Format<Event>)
    ensures IsSyntax(f.text)
  {
    EventsExact();
    LinesHaveSyntax(EventCode);
    Format(LineSyntax(EventCode), size, checksum, hash)
  }
}

/** The event feed: reading the journal behind a cursor, and removing repeats from a page of events. */
module EventFeed {
  import opened Prelude
  import opened Journal

  /** An event as it arrives; the sequence and the id may be missing or of the wrong kind. */
  datatype FeedEvent = FeedEvent(sequence: Option<int>, id: Option<string>, body: string)

  datatype StreamError = BadSequence | BadId | MovesBackwards

  predicate IsSpace(c: char) {
    c == ' ' || '\t' <= c <= '\r'
  }

  predicate BlankId(s: string) {
    forall i :: 0 <= i < |s| ==> IsSpace(s[i])
  }

  predicate WellFormed(e: FeedEvent) {
    e.sequence.Some? && e.sequence.value > 0 && e.id.Some? && !BlankId(e.id.value)
  }

  predicate AllWellFormed(events: seq<FeedEvent>) {
    forall i :: 0 <= i < |events| ==> WellFormed(events[i])
  }

  /** Strictly increasing in sequence, without a repeated id. */
  predicate Clean(events: seq<FeedEvent>) {
    && AllWellFormed(events)
    && (forall i, j :: 0 <= i < j < |events| ==> events[i].sequence.value < events[j].sequence.value)
    && (forall i, j :: 0 <= i < j < |events| ==> events[i].id != events[j].id)
  }

  function Ids(events: seq<FeedEvent>): set<string> {
    set i | 0 <= i < |events| && events[i].id.Some? :: events[i].id.value
  }

  function Sequences(events: seq<FeedEvent>): set<int> {
    set i | 0 <= i < |events| && events[i].sequence.Some? :: events[i].sequence.value
  }

  function LastSequence(kept: seq<FeedEvent>): int {
    if kept == [] || kept[|kept| - 1].sequence.None? then 0 else kept[|kept| - 1].sequence.value
  }

  /** What is kept of a page: an event stays if neither its id nor its sequence was seen before it. */
  function Dedup(events: seq<FeedEvent>): Result<seq<FeedEvent>, StreamError> {
    if events == [] then Ok([])
    else
      var front, e := events[..|events| - 1], events[|events| - 1];
      match Dedup(front)
      case Err(error) => Err(error)
      case Ok(kept) =>
        if e.sequence.None? || e.sequence.value <= 0 then Err(BadSequence)
        else if e.id.None? || BlankId(e.id.value) then Err(BadId)
        else if e.sequence.value < LastSequence(kept) && e.sequence.value !in Sequences(front) then Err(MovesBackwards)
        else if e.id.value in Ids(front) || e.sequence.value in Sequences(front) then Ok(kept)
        else Ok(kept + [e])
  }

  method DeduplicateEvents(events: seq<FeedEvent>) returns (r: Result<seq<FeedEvent>, StreamError>)
    ensures r == Dedup(events)
  {
    var result: seq<FeedEvent> := [];
    var ids: set<string>, sequences: set<int>, previous := {}, {}, 0;
    for i := 0 to |events|
      invariant Dedup(events[..i]) == Ok(result) && previous == LastSequence(result)
      invariant ids == Ids(events[..i]) && sequences == Sequences(events[..i])
    {
      var e := events[i];
      assert events[..i + 1][..i] == events[..i];
      DedupStuck(events, i + 1);
      if e.sequence.None? || e.sequence.value <= 0 { return Err(BadSequence); }
      if e.id.None? || BlankId(e.id.value) { return Err(BadId); }
      if e.sequence.value < previous && e.sequence.value !in sequences { return Err(MovesBackwards); }
      var duplicate := e.id.value in ids || e.sequence.value in sequences;
      SeenSnoc(events[..i], e);
      assert events[..i + 1] == events[..i] + [e];
      ids := ids + {e.id.value};
      sequences := sequences + {e.sequence.value};
      if !duplicate {
        previous := e.sequence.value;
        result := result + [e];
      }
    }
    assert events[..|events|] == events;
    return Ok(result);
  }

  lemma {:induction false} DedupStuck(events: seq<FeedEvent>, i: nat)
    requires i <= |events|
    ensures Dedup(events[..i]).Err? ==> Dedup(events) == Dedup(events[..i])
  {
    if i < |events| {
      assert events[..|events| - 1][..i] == events[..i];
      DedupStuck(events[..|events| - 1], i);
    } else {
      assert events[..i] == events;
    }
  }

  lemma SeenSnoc(events: seq<FeedEvent>, e: FeedEvent)
    requires e.id.Some? && e.sequence.Some?
    ensures Ids(events + [e]) == Ids(events) + {e.id.value}
    ensures Sequences(events + [e]) == Sequences(events) + {e.sequence.value}
  {
    var all := events + [e];
    assert all[|events|] == e;
    assert forall i :: 0 <= i < |events| ==> all[i] == events[i];
    forall x ensures x in Ids(all) <==> x in Ids(events) + {e.id.value} {}
    forall x ensures x in Sequences(all) <==> x in Sequences(events) + {e.sequence.value} {}
  }

  lemma CleanAppend(kept: seq<FeedEvent>, e: FeedEvent)
    requires Clean(kept) && WellFormed(e)
    ensures Clean(kept + [e]) <==> e.sequence.value > LastSequence(kept) && e.id.value !in Ids(kept)
  {
    var all := kept + [e];
    assert forall i :: 0 <= i < |kept| ==> all[i] == kept[i];
    assert all[|kept|] == e;
    if Clean(all) {
      forall i | 0 <= i < |kept| ensures kept[i].id != e.id { assert all[i].id != all[|kept|].id; }
      if kept != [] { assert all[|kept| - 1].sequence.value < all[|kept|].sequence.value; }
    }
    if e.sequence.value > LastSequence(kept) && e.id.value !in Ids(kept) {
      forall i | 0 <= i < |kept| ensures kept[i].sequence.value < e.sequence.value && kept[i].id != e.id {
        assert kept[i].id.value in Ids(kept);
      }
    }
  }

  lemma CleanLast(events: seq<FeedEvent>)
    requires Clean(events) && events != []
    ensures var front, e := events[..|events| - 1], events[|events| - 1];
            Clean(front) && WellFormed(e) && e.sequence.value > LastSequence(front) && e.id.value !in Ids(front)
  {
    FrontAndLast(events);
    CleanAppend(events[..|events| - 1], events[|events| - 1]);
  }

  lemma SeenLast(events: seq<FeedEvent>)
    requires events != [] && events[|events| - 1].id.Some? && events[|events| - 1].sequence.Some?
    ensures var front, e := events[..|events| - 1], events[|events| - 1];
            Ids(events) == Ids(front) + {e.id.value} && Sequences(events) == Sequences(front) + {e.sequence.value}
  {
    FrontAndLast(events);
    SeenSnoc(events[..|events| - 1], events[|events| - 1]);
  }

  lemma CleanAllBefore(kept: seq<FeedEvent>, s: int)
    requires Clean(kept) && s in Sequences(kept)
    ensures s <= LastSequence(kept) && LastSequence(kept) in Sequences(kept)
  {
    assert kept[|kept| - 1].sequence.value in Sequences(kept);
  }

  lemma AllWellFormedSnoc(events: seq<FeedEvent>)
    requires events != [] && AllWellFormed(events[..|events| - 1]) && WellFormed(events[|events| - 1])
    ensures AllWellFormed(events)
  {}

  lemma LastIsSeen(kept: seq<FeedEvent>)
    requires Clean(kept) && kept != []
    ensures LastSequence(kept) in Sequences(kept)
  {
    assert kept[|kept| - 1].sequence.value in Sequences(kept);
  }

  /** What comes out is clean, and was in the page. */
  lemma {:induction false} DedupClean(events: seq<FeedEvent>)
    requires Dedup(events).Ok?
    ensures Clean(Dedup(events).value) && AllWellFormed(events)
    ensures Ids(Dedup(events).value) <= Ids(events) && Sequences(Dedup(events).value) <= Sequences(events)
  {
    if events != [] {
      var front, e := events[..|events| - 1], events[|events| - 1];
      DedupClean(front);
      SeenLast(events);
      AllWellFormedSnoc(events);
      var kept := Dedup(front).value;
      if Dedup(events).value != kept {
        SeenSnoc(kept, e);
        if kept != [] { LastIsSeen(kept); }
        CleanAppend(kept, e);
      }
    }
  }

  /** A clean page passes through unchanged; so a second pass changes nothing. */
  lemma {:induction false} CleanIsFixed(events: seq<FeedEvent>)
    requires Clean(events)
    ensures Dedup(events) == Ok(events)
  {
    if events != [] {
      var front, e := events[..|events| - 1], events[|events| - 1];
      CleanLast(events);
      CleanIsFixed(front);
      FrontAndLast(events);
      if e.sequence.value in Sequences(front) { CleanAllBefore(front, e.sequence.value); }
    }
  }

  lemma DedupIdempotent(events: seq<FeedEvent>)
    requires Dedup(events).Ok?
    ensures Dedup(Dedup(events).value) == Dedup(events)
  {
    DedupClean(events);
    CleanIsFixed(Dedup(events).value);
  }

  // ---------- What is refused ----------

  /** Something kept so far has a larger sequence than `e`, and nothing of the page had its own. */
  predicate GoesBack(before: seq<FeedEvent>, kept: seq<FeedEvent>, e: FeedEvent) {
    && e.sequence.Some?
    && (forall i :: 0 <= i < |before| ==> before[i].sequence != e.sequence)
    && exists k :: 0 <= k < |kept| && kept[k].sequence.Some? && kept[k].sequence.value > e.sequence.value
  }

  /** What is wrong with the event at `i` of a page that was fine up to there. */
  function Fault(before: seq<FeedEvent>, kept: seq<FeedEvent>, e: FeedEvent): Option<StreamError> {
    if e.sequence.None? || e.sequence.value < 1 then Some(BadSequence)
    else if e.id.None? || BlankId(e.id.value) then Some(BadId)
    else if GoesBack(before, kept, e) then Some(MovesBackwards)
    else None
  }

  lemma LargestKept(kept: seq<FeedEvent>, e: FeedEvent)
    requires Clean(kept) && e.sequence.Some? && e.sequence.value > 0
    ensures e.sequence.value < LastSequence(kept) <==>
              exists k :: 0 <= k < |kept| && kept[k].sequence.Some? && kept[k].sequence.value > e.sequence.value
  {
    if e.sequence.value < LastSequence(kept) {
      assert kept[|kept| - 1].sequence.value > e.sequence.value;
    }
    forall k | 0 <= k < |kept| ensures kept[k].sequence.value <= LastSequence(kept) {
      if k < |kept| - 1 { assert kept[k].sequence.value < kept[|kept| - 1].sequence.value; }
    }
  }

  function FaultAt(events: seq<FeedEvent>, i: nat): Option<StreamError>
    requires i < |events|
  {
    match Dedup(events[..i])
    case Ok(kept) => Fault(events[..i], kept, events[i])
    case Err(_) => None
  }

  ghost predicate FineAt(events: seq<FeedEvent>, i: nat)
    requires i < |events|
  {
    Dedup(events[..i]).Ok? && FaultAt(events, i).None?
  }

  /** A page is refused at its first faulty event and for that event's fault, and else not at all. */
  lemma {:induction false} RefusedAtFirstFault(events: seq<FeedEvent>)
    ensures Dedup(events).Ok? <==> forall i :: 0 <= i < |events| ==> FineAt(events, i)
    ensures Dedup(events).Err? ==> exists i :: 0 <= i < |events| && FaultAt(events, i) == Some(Dedup(events).error)
  {
    if events != [] {
      var n := |events| - 1;
      var front := events[..n];
      RefusedAtFirstFault(front);
      LastFault(events);
      forall i | 0 <= i < n ensures FineAt(front, i) == FineAt(events, i) && FaultAt(front, i) == FaultAt(events, i) {
        assert front[..i] == events[..i];
      }
    }
  }

  lemma LastFault(events: seq<FeedEvent>)
    requires events != []
    ensures var n := |events| - 1;
            && (Dedup(events).Ok? <==> FineAt(events, n))
            && (Dedup(events[..n]).Ok? && Dedup(events).Err? ==> FaultAt(events, n) == Some(Dedup(events).error))
            && (Dedup(events[..n]).Err? ==> Dedup(events) == Dedup(events[..n]))
  {
    var n := |events| - 1;
    var front, e := events[..n], events[n];
    if Dedup(front).Ok? {
      DedupClean(front);
      FaultAtEnd(front, Dedup(front).value, e);
      if e.sequence.Some? && e.sequence.value > 0 { LargestKept(Dedup(front).value, e); }
    }
  }

  lemma FaultAtEnd(front: seq<FeedEvent>, kept: seq<FeedEvent>, e: FeedEvent)
    requires AllWellFormed(front)
    ensures e.sequence.Some? ==>
              (e.sequence.value in Sequences(front) <==>
                 !(forall i :: 0 <= i < |front| ==> front[i].sequence != e.sequence))
  {
    if e.sequence.Some? {
      if e.sequence.value in Sequences(front) {
        var i :| 0 <= i < |front| && front[i].sequence.Some? && front[i].sequence.value == e.sequence.value;
        assert front[i].sequence == e.sequence;
      }
      if i :| 0 <= i < |front| && front[i].sequence == e.sequence { assert e.sequence.value in Sequences(front); }
    }
  }

  /** An id is blank when all of it is ASCII white space: tab to carriage return, and the space. */
  lemma BlankIds(id: string)
    ensures !BlankId(id) <==> exists i :: 0 <= i < |id| && id[i] !in {' ', '\t', '\n', 11 as char, 12 as char, '\r'}
  {}

  // ---------- What is lost ----------

  /** An id that comes up for the first time comes under a sequence not seen before. */
  ghost predicate FirstsAreNew(events: seq<FeedEvent>) {
    forall i :: 0 <= i < |events| ==> FirstIdIsNew(events[..i], events[i])
  }

  predicate FirstIdIsNew(before: seq<FeedEvent>, e: FeedEvent) {
    e.id.Some? && e.sequence.Some? && e.id.value !in Ids(before) ==> e.sequence.value !in Sequences(before)
  }

  /** A sequence that comes up for the first time comes with an id not seen before. */
  ghost predicate FirstSequencesAreNew(events: seq<FeedEvent>) {
    forall i :: 0 <= i < |events| ==> FirstSequenceIsNew(events[..i], events[i])
  }

  predicate FirstSequenceIsNew(before: seq<FeedEvent>, e: FeedEvent) {
    e.id.Some? && e.sequence.Some? && e.sequence.value !in Sequences(before) ==> e.id.value !in Ids(before)
  }

  lemma FirstsFront(events: seq<FeedEvent>)
    requires events != []
    ensures var front, e := events[..|events| - 1], events[|events| - 1];
            && (FirstsAreNew(events) <==> FirstsAreNew(front) && FirstIdIsNew(front, e))
            && (FirstSequencesAreNew(events) <==> FirstSequencesAreNew(front) && FirstSequenceIsNew(front, e))
  {
    var front := events[..|events| - 1];
    assert forall i :: 0 <= i < |front| ==> front[..i] == events[..i] && front[i] == events[i];
  }

  /** No id is lost if and only if every id first comes up under a new sequence. */
  lemma {:induction false} NoIdLostIff(events: seq<FeedEvent>)
    requires Dedup(events).Ok?
    ensures Ids(Dedup(events).value) == Ids(events) <==> FirstsAreNew(events)
  {
    if events != [] {
      var front, e := events[..|events| - 1], events[|events| - 1];
      NoIdLostIff(front);
      DedupClean(front);
      SeenLast(events);
      FirstsFront(events);
      var kept := Dedup(front).value;
      SeenSnoc(kept, e);
      if e.id.value !in Ids(front) {
        AddedToBoth(Ids(kept), Ids(front), e.id.value);
      }
    }
  }

  /** No sequence is lost if and only if every sequence first comes up with a new id. */
  lemma {:induction false} NoSequenceLostIff(events: seq<FeedEvent>)
    requires Dedup(events).Ok?
    ensures Sequences(Dedup(events).value) == Sequences(events) <==> FirstSequencesAreNew(events)
  {
    if events != [] {
      var front, e := events[..|events| - 1], events[|events| - 1];
      NoSequenceLostIff(front);
      DedupClean(front);
      SeenLast(events);
      FirstsFront(events);
      var kept := Dedup(front).value;
      SeenSnoc(kept, e);
      if e.sequence.value !in Sequences(front) {
        AddedToBoth(Sequences(kept), Sequences(front), e.sequence.value);
      }
    }
  }

  lemma AddedToBoth<T>(a: set<T>, b: set<T>, x: T)
    requires a <= b && x !in b
    ensures a + {x} == b + {x} <==> a == b
    ensures a != b + {x}
  {
    assert a == (a + {x}) - {x} && b == (b + {x}) - {x};
    assert x in b + {x};
  }

  /** Ids and sequences name the same events. */
  predicate Consistent(events: seq<FeedEvent>) {
    forall i, j :: 0 <= i < |events| && 0 <= j < |events| ==>
      (events[i].id == events[j].id <==> events[i].sequence == events[j].sequence)
  }

  /** When ids and sequences name the same events, neither is lost. */
  lemma NothingLost(events: seq<FeedEvent>)
    requires Dedup(events).Ok? && Consistent(events)
    ensures Ids(Dedup(events).value) == Ids(events) && Sequences(Dedup(events).value) == Sequences(events)
  {
    NoIdLostIff(events);
    NoSequenceLostIff(events);
    DedupClean(events);
    forall i | 0 <= i < |events|
      ensures FirstIdIsNew(events[..i], events[i]) && FirstSequenceIsNew(events[..i], events[i])
    {
      SeenTogether(events, i);
    }
  }

  lemma SeenTogether(events: seq<FeedEvent>, i: nat)
    requires Consistent(events) && AllWellFormed(events) && i < |events|
    ensures events[i].id.value in Ids(events[..i]) <==> events[i].sequence.value in Sequences(events[..i])
  {
    var front, e := events[..i], events[i];
    if e.id.value in Ids(front) {
      var j :| 0 <= j < |front| && front[j].id == e.id;
      assert events[j] == front[j] && front[j].sequence.value in Sequences(front);
    }
    if e.sequence.value in Sequences(front) {
      var j :| 0 <= j < |front| && front[j].sequence == e.sequence;
      assert events[j] == front[j] && front[j].id.value in Ids(front);
    }
  }

  /** When they do not, an event can vanish although nothing that was kept shares its id or its sequence. */
  lemma LostThroughADuplicate(a: FeedEvent, b: FeedEvent, c: FeedEvent)
    requires WellFormed(a) && WellFormed(b) && WellFormed(c)
    requires b.id == a.id && b.sequence.value > a.sequence.value && c.sequence == b.sequence && c.id != a.id
    ensures Dedup([a, b, c]) == Ok([a])
    ensures c.id != a.id && c.sequence != a.sequence
  {
    DedupTwo(a, b);
    SeenSnoc([a], b);
    assert [a, b, c][..2] == [a, b] && [a] + [b] == [a, b];
    assert c.sequence.value in Sequences([a, b]);
  }

  lemma DedupTwo(a: FeedEvent, b: FeedEvent)
    requires WellFormed(a) && WellFormed(b) && b.id == a.id && b.sequence.value > a.sequence.value
    ensures Dedup([a]) == Ok([a]) && Dedup([a, b]) == Ok([a])
  {
    SeenSnoc([], a);
    assert [a][..0] == [] && [a, b][..1] == [a] && [] + [a] == [a];
    assert Dedup([]) == Ok([]);
    assert Dedup([a]) == Ok([a]);
  }

  // ---------- Journal feeds ----------

  /** How the transport shows a journal: the id it gives each sequence, and the events it lets through. */
  datatype View = View(name: int -> string, wanted: string -> bool)

  function Tail(r: Record<string>, after: int, v: View): seq<FeedEvent> {
    if r.EventRecord? && r.sequence > after && v.wanted(r.event)
    then [FeedEvent(Some(r.sequence), Some(v.name(r.sequence)), r.event)] else []
  }

  /** The events of a journal behind a cursor, as the view shows them. */
  function Events(records: seq<Record<string>>, after: int, v: View): seq<FeedEvent> {
    if records == [] then []
    else Events(records[..|records| - 1], after, v) + Tail(records[|records| - 1], after, v)
  }

  /** The sequences of events in a journal increase. */
  ghost predicate Ordered(records: seq<Record<string>>) {
    && (forall i :: 0 <= i < |records| && records[i].EventRecord? ==> records[i].sequence > 0)
    && (forall i, j :: 0 <= i < j < |records| && records[i].EventRecord? && records[j].EventRecord? ==>
          records[i].sequence < records[j].sequence)
  }

  /** Distinct sequences get distinct ids, none of them blank. */
  ghost predicate Naming(name: int -> string) {
    && (forall a, b :: name(a) == name(b) ==> a == b)
    && (forall a :: !BlankId(name(a)))
  }

  ghost predicate Recorded(records: seq<Record<string>>, s: int, body: string) {
    exists k :: 0 <= k < |records| && records[k].EventRecord? && records[k].sequence == s && records[k].event == body
  }

  /** Every event of a feed is a wanted event recorded behind the cursor, under its name. */
  lemma {:induction false} FeedMembers(records: seq<Record<string>>, after: int, v: View, e: FeedEvent)
    requires e in Events(records, after, v)
    ensures e.sequence.Some? && e.sequence.value > after && e.id == Some(v.name(e.sequence.value)) && v.wanted(e.body)
    ensures Recorded(records, e.sequence.value, e.body)
  {
    var front, r := records[..|records| - 1], records[|records| - 1];
    if e in Events(front, after, v) {
      FeedMembers(front, after, v, e);
      var k :| 0 <= k < |front| && front[k].EventRecord? && front[k].sequence == e.sequence.value
          && front[k].event == e.body;
      assert records[k] == front[k];
    }
  }

  /** And every such event is in the feed. */
  lemma {:induction false} FeedComplete(records: seq<Record<string>>, after: int, v: View, k: nat)
    requires k < |records| && records[k].EventRecord? && records[k].sequence > after && v.wanted(records[k].event)
    ensures FeedEvent(Some(records[k].sequence), Some(v.name(records[k].sequence)), records[k].event)
            in Events(records, after, v)
  {
    if k < |records| - 1 {
      FeedComplete(records[..|records| - 1], after, v, k);
    }
  }

  /** A feed is clean. */
  lemma {:induction false} FeedShape(records: seq<Record<string>>, after: int, v: View)
    requires Ordered(records) && Naming(v.name)
    ensures Clean(Events(records, after, v))
  {
    if records != [] {
      var front, r := records[..|records| - 1], records[|records| - 1];
      FrontAndLast(records);
      OrderedFront(front, r);
      FeedShape(front, after, v);
      if r.EventRecord? && r.sequence > after && v.wanted(r.event) { FeedSnoc(front, r, after, v); }
    }
  }

  lemma FeedSnoc(front: seq<Record<string>>, r: Record<string>, after: int, v: View)
    requires Ordered(front + [r]) && Naming(v.name) && r.EventRecord? && r.sequence > after
    requires Clean(Events(front, after, v))
    ensures Clean(Events(front, after, v) + [FeedEvent(Some(r.sequence), Some(v.name(r.sequence)), r.event)])
  {
    var fed := Events(front, after, v);
    var e := FeedEvent(Some(r.sequence), Some(v.name(r.sequence)), r.event);
    forall i | 0 <= i < |fed| ensures fed[i].sequence.value < r.sequence && fed[i].id != e.id {
      FeedMembers(front, after, v, fed[i]);
      var k :| 0 <= k < |front| && front[k].EventRecord? && front[k].sequence == fed[i].sequence.value;
      assert (front + [r])[k] == front[k] && (front + [r])[|front|] == r;
    }
    assert r.sequence > 0 by { assert (front + [r])[|front|] == r; }
    CleanAppend(fed, e);
  }

  /** A journal feed has no repeats: removing them is the identity. */
  lemma FeedIsFixed(records: seq<Record<string>>, after: int, v: View)
    requires Ordered(records) && Naming(v.name)
    ensures Dedup(Events(records, after, v)) == Ok(Events(records, after, v))
  {
    FeedShape(records, after, v);
    CleanIsFixed(Events(records, after, v));
  }

  // ---------- Cursors ----------

  /**
     A cursor a reader may resume from: where it started or an event it has read, not behind any
     wanted event. It may be ahead of the last wanted event.
   */
  ghost predicate CursorOk(records: seq<Record<string>>, after: int, cursor: int, v: View) {
    && cursor >= after
    && (cursor == after || exists k :: 0 <= k < |records| && records[k].EventRecord? && records[k].sequence == cursor)
    && (forall e :: e in Events(records, after, v) ==> e.sequence.Some? && e.sequence.value <= cursor)
  }

  function Cursor(page: seq<FeedEvent>, after: int): int {
    if page == [] then after else LastSequence(page)
  }

  /** The sequence of the last event of a page is such a cursor. */
  lemma PageCursorOk(records: seq<Record<string>>, after: int, v: View)
    requires Ordered(records) && Naming(v.name)
    ensures CursorOk(records, after, Cursor(Events(records, after, v), after), v)
  {
    var page := Events(records, after, v);
    FeedShape(records, after, v);
    if page != [] {
      FeedMembers(records, after, v, page[|page| - 1]);
      forall e | e in page ensures e.sequence.Some? && e.sequence.value <= LastSequence(page) {
        var i :| 0 <= i < |page| && page[i] == e;
      }
    }
  }

  lemma OrderedFront(front: seq<Record<string>>, r: Record<string>)
    requires Ordered(front + [r])
    ensures Ordered(front)
  {
    assert forall i :: 0 <= i < |front| ==> (front + [r])[i] == front[i];
  }

  /** Events recorded after a reading lie behind every cursor it may leave, unless they lie before its start. */
  lemma MoreIsBehind(records: seq<Record<string>>, more: seq<Record<string>>, after: int, cursor: int, v: View, i: nat)
    requires Ordered(records + more) && CursorOk(records, after, cursor, v) && i < |more| && more[i].EventRecord?
    ensures more[i].sequence > after <==> more[i].sequence > cursor
  {
    var all := records + more;
    assert all[|records| + i] == more[i];
    if cursor != after {
      var k :| 0 <= k < |records| && records[k].EventRecord? && records[k].sequence == cursor;
      assert all[k] == records[k];
    }
  }

  /** Behind its own cursor a feed is empty. */
  lemma {:induction false} NothingBehind(records: seq<Record<string>>, after: int, cursor: int, v: View)
    requires cursor >= after
    requires forall e :: e in Events(records, after, v) ==> e.sequence.Some? && e.sequence.value <= cursor
    ensures Events(records, cursor, v) == []
  {
    if records != [] {
      var front, r := records[..|records| - 1], records[|records| - 1];
      NothingBehind(front, after, cursor, v);
      assert forall e :: e in Tail(r, after, v) ==> e in Events(records, after, v);
      assert Tail(r, cursor, v) != [] ==> Tail(r, cursor, v)[0] in Tail(r, after, v);
    }
  }

  lemma EventsSnoc(records: seq<Record<string>>, r: Record<string>, after: int, v: View)
    ensures Events(records + [r], after, v) == Events(records, after, v) + Tail(r, after, v)
  {
    FrontOfSnoc(records, r);
  }

  /**
     Reading behind `after` and then resuming from any such cursor reads what one reading of the grown
     journal would.
   */
  lemma {:induction false} ResumeReadsTheRest(
    records: seq<Record<string>>, more: seq<Record<string>>, after: int, cursor: int, v: View)
    requires Ordered(records + more) && CursorOk(records, after, cursor, v)
    ensures Events(records + more, after, v) == Events(records, after, v) + Events(records + more, cursor, v)
  {
    if more == [] {
      TakeAll(records);
      NothingBehind(records, after, cursor, v);
      TakeAll(Events(records, after, v));
    } else {
      var front, r := more[..|more| - 1], more[|more| - 1];
      FrontAndLast(more);
      Associative(records, front, [r]);
      OrderedFront(records + front, r);
      ResumeReadsTheRest(records, front, after, cursor, v);
      if r.EventRecord? { MoreIsBehind(records, more, after, cursor, v, |more| - 1); }
      assert Tail(r, after, v) == Tail(r, cursor, v);
      EventsSnoc(records + front, r, after, v);
      EventsSnoc(records + front, r, cursor, v);
      Associative(Events(records, after, v), Events(records + front, cursor, v), Tail(r, cursor, v));
    }
  }

  /** Reading a growing journal page by page, each page behind the cursor the last one left. */
  function Pages(records: seq<Record<string>>, lengths: seq<nat>, after: int, v: View): seq<FeedEvent>
    requires forall i :: 0 <= i < |lengths| ==> lengths[i] <= |records|
    decreases |lengths|
  {
    if lengths == [] then []
    else
      var page := Events(records[..lengths[0]], after, v);
      page + Pages(records, lengths[1..], Cursor(page, after), v)
  }

  /**
     Whatever the journal's length at each reading, the pages join to one full reading, with nothing
     lost or repeated.
   */
  lemma {:induction false} PagesJoin(records: seq<Record<string>>, lengths: seq<nat>, after: int, v: View)
    requires Ordered(records) && Naming(v.name)
    requires lengths != [] && lengths[|lengths| - 1] == |records|
    requires forall i :: 0 <= i < |lengths| ==> lengths[i] <= |records|
    ensures Pages(records, lengths, after, v) == Events(records, after, v)
    decreases |lengths|
  {
    if |lengths| == 1 {
      LastPage(records, lengths, after, v);
    } else {
      var later := lengths[1..];
      assert later[|later| - 1] == lengths[|lengths| - 1];
      PagesJoin(records, later, Cursor(Events(records[..lengths[0]], after, v), after), v);
      PageThenRest(records, lengths[0], after, v);
    }
  }

  lemma LastPage(records: seq<Record<string>>, lengths: seq<nat>, after: int, v: View)
    requires |lengths| == 1 && lengths[0] == |records|
    ensures Pages(records, lengths, after, v) == Events(records, after, v)
  {
    TakeAll(records);
    assert lengths[1..] == [];
    TakeAll(Events(records, after, v));
  }

  lemma PageThenRest(records: seq<Record<string>>, n: nat, after: int, v: View)
    requires Ordered(records) && Naming(v.name) && n <= |records|
    ensures var page := Events(records[..n], after, v);
            Events(records, after, v) == page + Events(records, Cursor(page, after), v)
  {
    var read := records[..n];
    assert read + records[n..] == records;
    assert Ordered(read) by { assert forall i :: 0 <= i < |read| ==> read[i] == records[i]; }
    PageCursorOk(read, after, v);
    ResumeReadsTheRest(read, records[n..], after, Cursor(Events(read, after, v), after), v);
  }

  // ---------- Following a task ----------

  function Wanted(page: seq<FeedEvent>, v: View): seq<FeedEvent> {
    if page == [] then []
    else Wanted(page[..|page| - 1], v) + if v.wanted(page[|page| - 1].body) then [page[|page| - 1]] else []
  }

  /** Everything, unfiltered: what one reading of the journal returns. */
  function Unfiltered(v: View): View {
    v.(wanted := (_: string) => true)
  }

  lemma WantedSnoc(page: seq<FeedEvent>, i: nat, v: View)
    requires i < |page|
    ensures Wanted(page[..i + 1], v) == Wanted(page[..i], v) + if v.wanted(page[i].body) then [page[i]] else []
  {
    TakeSnoc(page, i);
  }

  /** Filtering a reading is reading through the filter. */
  lemma {:induction false} FilteredReading(records: seq<Record<string>>, after: int, v: View)
    ensures Wanted(Events(records, after, Unfiltered(v)), v) == Events(records, after, v)
  {
    if records != [] {
      var front, r := records[..|records| - 1], records[|records| - 1];
      FilteredReading(front, after, v);
      var page := Events(front, after, Unfiltered(v));
      if r.EventRecord? && r.sequence > after {
        FrontOfSnoc(page, FeedEvent(Some(r.sequence), Some(v.name(r.sequence)), r.event));
      } else {
        TakeAll(page);
      }
    }
  }

  /** One follower of one task: what it has sent, what it has seen, and how far it has read. */
  class EventStream {
    const view: View
    const after: int
    var cursor: int
    var seen: set<int>
    var sent: seq<FeedEvent>

    /** What has been sent is the task's feed of the journal read so far. */
    ghost predicate Valid(records: seq<Record<string>>)
      reads this
    {
      && sent == Events(records, after, view) && CursorOk(records, after, cursor, view)
      && forall s :: s in seen ==> s <= cursor
    }

    /** The replay: filters the journal behind the client's cursor, removes repeats, and sends the rest. */
    constructor (records: seq<Record<string>>, after: int, view: View)
      requires Ordered(records) && Naming(view.name)
      ensures Valid(records) && this.after == after && this.view == view
    {
      this.view, this.after := view, after;
      PageCursorOk(records, after, view);
      SeenBelow(records, after, view);
      var replay := Replay(records, after, view);
      sent, cursor, seen := replay, Cursor(replay, after), Sequences(replay);
    }

    static method Replay(records: seq<Record<string>>, after: int, view: View) returns (replay: seq<FeedEvent>)
      requires Ordered(records) && Naming(view.name)
      ensures replay == Events(records, after, view)
    {
      FilteredReading(records, after, view);
      FeedIsFixed(records, after, view);
      var page := DeduplicateEvents(Wanted(Events(records, after, Unfiltered(view)), view));
      replay := page.value;
    }

    /** One round of following: sends what the task has new, and moves the cursor past everything read. */
    method Poll(ghost records: seq<Record<string>>, ghost more: seq<Record<string>>, now: seq<Record<string>>)
      requires Valid(records) && now == records + more && Ordered(now) && Naming(view.name)
      modifies this`cursor, this`seen, this`sent
      ensures Valid(now) && old(sent) <= sent
    {
      ghost var start := cursor;
      var page := Events(now, cursor, Unfiltered(view));
      FeedShape(now, cursor, Unfiltered(view));
      forall i | 0 <= i < |page| ensures page[i].sequence.value > cursor {
        FeedMembers(now, cursor, Unfiltered(view), page[i]);
      }
      Send(page);
      FilteredReading(now, start, view);
      ResumeReadsTheRest(records, more, after, start, view);
      CursorMoved(records, more, after, start, cursor, view);
    }

    /** Sends the wanted events of a page read behind the cursor. */
    method Send(page: seq<FeedEvent>)
      requires Clean(page) && (forall i :: 0 <= i < |page| ==> page[i].sequence.value > cursor)
      requires forall s :: s in seen ==> s <= cursor
      modifies this`cursor, this`seen, this`sent
      ensures sent == old(sent) + Wanted(page, view) && cursor == Cursor(page, old(cursor))
      ensures forall s :: s in seen ==> s <= cursor
    {
      TakeAll(sent);
      for i := 0 to |page|
        invariant sent == old(sent) + Wanted(page[..i], view)
        invariant cursor == if i == 0 then old(cursor) else page[i - 1].sequence.value
        invariant forall s :: s in seen ==> s <= cursor
      {
        WantedSnoc(page, i, view);
        Associative(old(sent), Wanted(page[..i], view), [page[i]]);
        TakeAll(Wanted(page[..i], view));
        SendOne(page[i]);
      }
      TakeAll(page);
    }

    method SendOne(event: FeedEvent)
      requires event.sequence.Some? && event.sequence.value > cursor
      requires forall s :: s in seen ==> s <= cursor
      modifies this`cursor, this`seen, this`sent
      ensures sent == (if view.wanted(event.body) then old(sent) + [event] else old(sent))
      ensures cursor == event.sequence.value && forall s :: s in seen ==> s <= cursor
    {
      var s := event.sequence.value;
      cursor := if s > cursor then s else cursor;
      if s !in seen && view.wanted(event.body) {
        seen := seen + {s};
        sent := sent + [event];
      }
    }
  }

  lemma SeenBelow(records: seq<Record<string>>, after: int, v: View)
    requires Ordered(records) && Naming(v.name)
    ensures forall s :: s in Sequences(Events(records, after, v)) ==> s <= Cursor(Events(records, after, v), after)
  {
    var page := Events(records, after, v);
    FeedShape(records, after, v);
    forall s | s in Sequences(page) ensures s <= Cursor(page, after) { CleanAllBefore(page, s); }
  }

  /** The end of a reading is a cursor to resume from. */
  lemma CursorMoved(records: seq<Record<string>>, more: seq<Record<string>>, after: int, start: int, cursor: int,
                    v: View)
    requires Ordered(records + more) && Naming(v.name) && CursorOk(records, after, start, v)
    requires cursor == Cursor(Events(records + more, start, Unfiltered(v)), start)
    ensures CursorOk(records + more, after, cursor, v)
  {
    var now := records + more;
    PageCursorOk(now, start, Unfiltered(v));
    ResumeReadsTheRest(records, more, after, start, v);
    FilteredReading(now, start, v);
    var page := Events(now, start, Unfiltered(v));
    forall e | e in Events(now, after, v) ensures e.sequence.Some? && e.sequence.value <= cursor {
      if e !in Events(records, after, v) {
        assert e in Events(now, start, v);
        WantedMember(page, v, e);
      }
    }
    if start != after && cursor == start {
      var k :| 0 <= k < |records| && records[k].EventRecord? && records[k].sequence == start;
      assert now[k] == records[k];
    }
  }

  lemma {:induction false} WantedMember(page: seq<FeedEvent>, v: View, e: FeedEvent)
    requires e in Wanted(page, v)
    ensures e in page
  {
    if e in Wanted(page[..|page| - 1], v) { WantedMember(page[..|page| - 1], v, e); }
  }

  // ---------- The journal's order ----------

  /** Every frame the journal appends keeps its events in order. */
  lemma FramesStayOrdered(records: seq<Record<string>>, start: int, events: seq<string>,
                          idem: Option<Idempotency<string>>)
    requires Ordered(records) && 0 <= start && MaxSequence(0, records) <= start
    ensures Ordered(records + MakeRecords(start, events, idem))
  {
    var made := MakeRecords(start, events, idem);
    var all := records + made;
    forall i | 0 <= i < |made| && made[i].EventRecord? ensures i < |events| && made[i].sequence == start + 1 + i {}
    MaxSequenceMember(0, records);
    forall i, j | 0 <= i < j < |all| && all[i].EventRecord? && all[j].EventRecord?
      ensures all[i].sequence < all[j].sequence
    {
      if j < |records| {
        assert all[i] == records[i] && all[j] == records[j];
      } else if i < |records| {
        assert all[i] == records[i] && all[j] == made[j - |records|];
      } else {
        assert all[i] == made[i - |records|] && all[j] == made[j - |records|];
      }
    }
    forall i | 0 <= i < |all| && all[i].EventRecord? ensures all[i].sequence > 0 {
      if i < |records| { assert all[i] == records[i]; } else { assert all[i] == made[i - |records|]; }
    }
  }
}

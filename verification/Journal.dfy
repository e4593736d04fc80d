/**
 The append-only journal of checksummed frames: what a line means, how a file is
 scanned at start-up, and the process object that appends to it.

 Text-level JSON is a parameter: a `Syntax` turns a value into one line body and back.
 `IsSyntax` lists what is needed of it.
 */
module Journal {
  import opened Prelude

  const LF: byte := 10
  const CR: byte := 13

  type Key = (string, string, string)

  datatype Record<+E> =
    | EventRecord(sequence: int, event: E)
    | IdempotencyRecord(sequence: int, key: Key, requestHash: string, response: seq<E>)

  datatype Envelope<+E> = Envelope(
    formatVersion: int,
    commitId: string,
    sequenceStart: int,
    sequenceEnd: int,
    expectedVersions: map<string, int>,
    payloadHash: string,
    length: int,
    checksum: string,
    records: seq<Record<E>>)

  /** What a line holds: a checksummed envelope, or the bare record list of the first format. */
  datatype Text<+E> = Object(envelope: Envelope<E>) | Legacy(records: seq<Record<E>>)

  datatype Syntax<!V> = Syntax(encode: V -> bytes, decode: bytes -> Option<V>)

  datatype Format<!E> = Format(
    text: Syntax<Text<E>>,
    size: seq<Record<E>> -> int,
    checksum: seq<Record<E>> -> string,
    canonicalHash: seq<Record<E>> -> string)

  datatype Idempotency<+E> = Idempotency(key: Key, requestHash: string, response: seq<E>)

  const FORMAT_VERSION := 1
  const SNAPSHOT_FORMAT_VERSION := 1

  predicate IsBlankByte(b: byte) {
    b == 32 || 9 <= b <= 13
  }

  predicate Blank(s: bytes) {
    forall i :: 0 <= i < |s| ==> IsBlankByte(s[i])
  }

  /** The white space the syntax itself allows: less than what counts as blank in a line. */
  predicate SyntaxBlank(s: bytes) {
    forall i :: 0 <= i < |s| ==> s[i] == 32 || s[i] == 9 || s[i] == LF || s[i] == CR
  }

  predicate AllBlank(lines: seq<bytes>) {
    forall i :: 0 <= i < |lines| ==> Blank(lines[i])
  }

  /**
   What the journal needs of its line syntax: bodies stay on one line and start with ink;
   white space of the syntax after a body is harmless; ink after a body, or a body cut short, does
   not decode. What follows of other blank bytes is left open.
   */
  ghost predicate IsSyntax<V(!new)>(s: Syntax<V>) {
    && (forall v :: |s.encode(v)| > 0 && !IsBlankByte(s.encode(v)[0]))
    && (forall v, i :: 0 <= i < |s.encode(v)| ==> s.encode(v)[i] != LF && s.encode(v)[i] != CR)
    && (forall v, t :: SyntaxBlank(t) ==> s.decode(s.encode(v) + t) == Some(v))
    && (forall v, t :: !Blank(t) ==> s.decode(s.encode(v) + t) == None)
    && (forall v, k :: 0 <= k < |s.encode(v)| ==> s.decode(s.encode(v)[..k]) == None)
  }

  // ---------- Lines ----------

  /** Length of the first line with its end; a line ends at LF, CR or CR LF. */
  function LineLength(s: bytes): (n: nat)
    requires s != []
    ensures 0 < n <= |s|
  {
    if s[0] == LF then 1
    else if s[0] == CR then (if |s| > 1 && s[1] == LF then 2 else 1)
    else if |s| == 1 then 1
    else 1 + LineLength(s[1..])
  }

  function SplitLines(s: bytes): seq<bytes> {
    if s == [] then [] else
      var n := LineLength(s);
      [s[..n]] + SplitLines(s[n..])
  }

  predicate EndsLine(s: bytes) {
    s == [] || s[|s| - 1] == LF
  }

  // ---------- Frames ----------

  predicate EnvelopeOk<E>(f: Format<E>, e: Envelope<E>) {
    var rs := e.records;
    && e.formatVersion == FORMAT_VERSION
    && e.length == f.size(rs)
    && e.checksum == f.checksum(rs)
    && e.sequenceStart == (if rs != [] then rs[0].sequence else e.sequenceEnd + 1)
    && e.sequenceEnd == (if rs != [] then rs[|rs| - 1].sequence else e.sequenceStart - 1)
    && e.payloadHash == f.canonicalHash(rs)
  }

  function FrameRecords<E>(f: Format<E>, line: bytes): Option<seq<Record<E>>> {
    match f.text.decode(line)
    case None => None
    case Some(Legacy(rs)) => Some(rs)
    case Some(Object(e)) => if EnvelopeOk(f, e) then Some(e.records) else None
  }

  function EventRecords<E>(sequence: int, events: seq<E>): (rs: seq<Record<E>>)
    ensures |rs| == |events|
    ensures forall i :: 0 <= i < |rs| ==> rs[i] == EventRecord(sequence + 1 + i, events[i])
    decreases |events|
  {
    if events == [] then []
    else [EventRecord(sequence + 1, events[0])] + EventRecords(sequence + 1, events[1..])
  }

  function IdempotencyRecords<E>(sequence: int, idem: Option<Idempotency<E>>): seq<Record<E>> {
    match idem
    case None => []
    case Some(i) => [IdempotencyRecord(sequence, i.key, i.requestHash, i.response)]
  }

  function MakeRecords<E>(sequence: int, events: seq<E>, idem: Option<Idempotency<E>>): seq<Record<E>> {
    EventRecords(sequence, events) + IdempotencyRecords(sequence + |events|, idem)
  }

  function MakeEnvelope<E>(f: Format<E>, sequence: int, events: seq<E>, versions: map<string, int>,
                           idem: Option<Idempotency<E>>, commitId: string): Envelope<E>
  {
    var rs := MakeRecords(sequence, events, idem);
    Envelope(FORMAT_VERSION, commitId, sequence + 1, sequence + |events|, versions,
             f.canonicalHash(rs), f.size(rs), f.checksum(rs), rs)
  }

  function Written<E>(f: Format<E>, e: Envelope<E>): bytes {
    f.text.encode(Object(e)) + [LF]
  }

  // ---------- Scanning a file ----------

  /** The three outcomes of a scan: all frames read, an unreadable last line, or damage before it. */
  datatype Scan<+E> =
    | Whole(records: seq<Record<E>>)
    | Torn(records: seq<Record<E>>, validEnd: nat, tail: bytes)
    | Damaged(line: nat)

  function Shift<E>(rs: seq<Record<E>>, n: nat, lines: nat, s: Scan<E>): Scan<E> {
    match s
    case Whole(more) => Whole(rs + more)
    case Torn(more, end, tail) => Torn(rs + more, n + end, tail)
    case Damaged(line) => Damaged(lines + line)
  }

  function ScanLines<E>(f: Format<E>, lines: seq<bytes>): Scan<E> {
    if lines == [] then Whole([])
    else if Blank(lines[0]) then Shift([], |lines[0]|, 1, ScanLines(f, lines[1..]))
    else
      match FrameRecords(f, lines[0])
      case Some(rs) => Shift(rs, |lines[0]|, 1, ScanLines(f, lines[1..]))
      case None => if AllBlank(lines[1..]) then Torn([], 0, lines[0]) else Damaged(1)
  }

  function ScanFile<E>(f: Format<E>, file: bytes): Scan<E> {
    ScanLines(f, SplitLines(file))
  }

  // ---------- Records, sequence numbers and the idempotency index ----------

  function Newer<E>(records: seq<Record<E>>, after: int): seq<Record<E>> {
    if records == [] then []
    else (if records[0].sequence <= after then [] else [records[0]]) + Newer(records[1..], after)
  }

  function MaxSequence<E>(base: int, records: seq<Record<E>>): (m: int)
    ensures m >= base
  {
    if records == [] then base else
      var last := records[|records| - 1];
      var m := MaxSequence(base, records[..|records| - 1]);
      if last.sequence > m then last.sequence else m
  }

  type Index<E> = map<Key, (string, seq<E>)>

  function IndexRecord<E>(index: Index<E>, r: Record<E>): Index<E> {
    if r.IdempotencyRecord? then index[r.key := (r.requestHash, r.response)] else index
  }

  function IndexOf<E>(records: seq<Record<E>>): Index<E> {
    if records == [] then map[]
    else IndexRecord(IndexOf(records[..|records| - 1]), records[|records| - 1])
  }

  datatype Snapshot<+E> = Snapshot(sequence: int, records: seq<Record<E>>)

  datatype SnapshotFile<+E> =
    | Unreadable
    | SnapshotFile(formatVersion: int, sequence: int, payloadHash: string, records: seq<Record<E>>)

  function DecodeSnapshot<E>(f: Format<E>, raw: SnapshotFile<E>): Option<Snapshot<E>> {
    if raw.Unreadable? || raw.formatVersion != SNAPSHOT_FORMAT_VERSION then None
    else if raw.payloadHash != f.canonicalHash(raw.records) then None
    else if raw.sequence < 0 || (exists i :: 0 <= i < |raw.records| && raw.records[i].sequence > raw.sequence) then None
    else Some(Snapshot(raw.sequence, raw.records))
  }

  /** Start-up takes the first generation that decodes. */
  function ChosenSnapshot<E>(f: Format<E>, candidates: seq<SnapshotFile<E>>): Option<Snapshot<E>> {
    if candidates == [] then None
    else if DecodeSnapshot(f, candidates[0]).Some? then DecodeSnapshot(f, candidates[0])
    else ChosenSnapshot(f, candidates[1..])
  }

  function SnapshotRecords<E>(s: Option<Snapshot<E>>): seq<Record<E>> {
    if s.None? then [] else s.value.records
  }

  function SnapshotSequence<E>(s: Option<Snapshot<E>>): int {
    if s.None? then 0 else s.value.sequence
  }

  function LoadedRecords<E>(s: Option<Snapshot<E>>, log: seq<Record<E>>): seq<Record<E>> {
    SnapshotRecords(s) + Newer(log, SnapshotSequence(s))
  }

  function LoadedSequence<E>(s: Option<Snapshot<E>>, log: seq<Record<E>>): int {
    MaxSequence(SnapshotSequence(s), Newer(log, SnapshotSequence(s)))
  }

  lemma NewerAppend<E>(a: seq<Record<E>>, b: seq<Record<E>>, after: int)
    ensures Newer(a + b, after) == Newer(a, after) + Newer(b, after)
  {
    if a == [] {
      assert a + b == b;
    } else {
      assert (a + b)[1..] == a[1..] + b;
      NewerAppend(a[1..], b, after);
    }
  }

  lemma SnocFacts<E>(base: int, a: seq<Record<E>>, r: Record<E>)
    ensures MaxSequence(base, a + [r]) == if r.sequence > MaxSequence(base, a) then r.sequence else MaxSequence(base, a)
    ensures IndexOf(a + [r]) == IndexRecord(IndexOf(a), r)
  {
    assert (a + [r])[..|a + [r]| - 1] == a;
  }

  lemma MaxSequenceMember<E>(base: int, records: seq<Record<E>>)
    ensures forall i :: 0 <= i < |records| ==> records[i].sequence <= MaxSequence(base, records)
  {}

  lemma MaxSequenceBound<E>(base: int, records: seq<Record<E>>, bound: int)
    requires base <= bound && forall i :: 0 <= i < |records| ==> records[i].sequence <= bound
    ensures MaxSequence(base, records) <= bound
  {
  }

  lemma MaxSequenceMonotone<E>(b0: int, b1: int, records: seq<Record<E>>)
    requires b0 <= b1
    ensures MaxSequence(b0, records) <= MaxSequence(b1, records)
  {
  }

  lemma NewerSnoc<E>(a: seq<Record<E>>, r: Record<E>, after: int)
    ensures Newer(a + [r], after) == if r.sequence <= after then Newer(a, after) else Newer(a, after) + [r]
  {
    NewerAppend(a, [r], after);
    assert Newer([r], after) == if r.sequence <= after then [] else [r];
  }

  lemma MaxSequenceAppend<E>(base: int, a: seq<Record<E>>, b: seq<Record<E>>)
    ensures MaxSequence(base, a + b) == MaxSequence(MaxSequence(base, a), b)
  {
    if b == [] {
      assert a + b == a;
    } else {
      assert (a + b)[..|a + b| - 1] == a + b[..|b| - 1];
      MaxSequenceAppend(base, a, b[..|b| - 1]);
    }
  }

  lemma ShiftShift<E>(a: seq<Record<E>>, n: nat, i: nat, b: seq<Record<E>>, m: nat, j: nat, s: Scan<E>)
    ensures Shift(a, n, i, Shift(b, m, j, s)) == Shift(a + b, n + m, i + j, s)
  {
    if !s.Damaged? {
      assert a + (b + s.records) == a + b + s.records;
    }
  }

  /** Index of the last line with ink, or -1. */
  function LastInked(lines: seq<bytes>): (i: int)
    ensures -1 <= i < |lines|
    ensures forall j :: i < j < |lines| ==> Blank(lines[j])
    ensures i >= 0 ==> !Blank(lines[i])
  {
    if lines == [] then -1
    else if !Blank(lines[|lines| - 1]) then |lines| - 1
    else LastInked(lines[..|lines| - 1])
  }

  // ---------- The process object ----------

  class LocalJournal<E> {
    const format: Format<E>
    var file: bytes
    var sequence: int
    var snapshotSequence: int
    var records: seq<Record<E>>
    var idempotency: Index<E>
    var quarantine: seq<bytes>

    /** The in-memory index is the fold of the in-memory records, none of which is ahead of `sequence`. */
    ghost predicate Valid()
      reads this
    {
      && idempotency == IndexOf(records)
      && MaxSequence(0, records) <= sequence
    }

    constructor (format: Format<E>, file: bytes)
      ensures Valid() && this.format == format && this.file == file
      ensures sequence == 0 && snapshotSequence == 0 && records == [] && quarantine == []
    {
      this.format := format;
      this.file := file;
      sequence, snapshotSequence, records := 0, 0, [];
      idempotency := map[];
      quarantine := [];
    }

    method LoadSnapshot(candidates: seq<SnapshotFile<E>>)
      requires Valid() && records == [] && sequence == 0 && snapshotSequence == 0
      modifies this`sequence, this`snapshotSequence, this`records, this`idempotency
      ensures Valid()
      ensures records == SnapshotRecords(ChosenSnapshot(format, candidates))
      ensures sequence == snapshotSequence == SnapshotSequence(ChosenSnapshot(format, candidates))
    {
      for i := 0 to |candidates|
        invariant records == [] && sequence == 0 && snapshotSequence == 0 && Valid()
        invariant ChosenSnapshot(format, candidates) == ChosenSnapshot(format, candidates[i..])
      {
        assert candidates[i..][0] == candidates[i] && candidates[i..][1..] == candidates[i + 1..];
        var decoded := DecodeSnapshot(format, candidates[i]);
        if decoded.Some? {
          records := decoded.value.records;
          sequence, snapshotSequence := decoded.value.sequence, decoded.value.sequence;
          idempotency := map[];
          for j := 0 to |records|
            invariant records == decoded.value.records
            invariant sequence == snapshotSequence == decoded.value.sequence
            invariant idempotency == IndexOf(records[..j])
          {
            assert records[..j + 1][..j] == records[..j];
            idempotency := IndexRecord(idempotency, records[j]);
          }
          assert records[..|records|] == records;
          MaxSequenceBound(0, records, sequence);
          return;
        }
      }
    }

    /** Takes one record unless the snapshot already holds it. */
    method AdmitRecord(r: Record<E>)
      requires Valid()
      modifies this`sequence, this`records, this`idempotency
      ensures Valid()
      ensures r.sequence <= snapshotSequence ==> records == old(records) && sequence == old(sequence)
      ensures r.sequence > snapshotSequence ==>
                && records == old(records) + [r]
                && sequence == if r.sequence > old(sequence) then r.sequence else old(sequence)
    {
      if r.sequence > snapshotSequence {
        SnocFacts(0, records, r);
        records := records + [r];
        if r.sequence > sequence { sequence := r.sequence; }
        idempotency := IndexRecord(idempotency, r);
      }
    }

    /** Takes the records of one frame on top of what snapshot and journal have given so far. */
    method Admit(frame: seq<Record<E>>, ghost snap: Option<Snapshot<E>>, ghost log: seq<Record<E>>)
      requires Valid() && snapshotSequence == SnapshotSequence(snap) && Holds(snap, log)
      modifies this`sequence, this`records, this`idempotency
      ensures Valid() && Holds(snap, log + frame)
    {
      ghost var taken := [];
      for i := 0 to |frame|
        invariant Valid() && taken == Newer(frame[..i], snapshotSequence)
        invariant records == old(records) + taken
        invariant sequence == MaxSequence(old(sequence), taken)
      {
        assert frame[..i + 1] == frame[..i] + [frame[i]];
        NewerSnoc(frame[..i], frame[i], snapshotSequence);
        SnocFacts(old(sequence), taken, frame[i]);
        AdmitRecord(frame[i]);
        if frame[i].sequence > snapshotSequence {
          Associative(old(records), taken, [frame[i]]);
          taken := taken + [frame[i]];
        }
      }
      assert frame[..|frame|] == frame;
      LoadedAppend(snap, log, frame);
    }

    /**
     Start-up. Reads every frame; an unreadable last line is quarantined and cut off the file;
     an unreadable earlier line refuses the start and leaves the file alone.
     */
    method Load(candidates: seq<SnapshotFile<E>>) returns (r: Result<(), nat>)
      requires Valid() && records == [] && sequence == 0 && snapshotSequence == 0
      modifies this
      ensures Outcome(ScanFile(format, old(file)), old(file), old(quarantine), r, ChosenSnapshot(format, candidates))
    {
      LoadSnapshot(candidates);
      ghost var snap := ChosenSnapshot(format, candidates);
      SplitLinesLength(file);
      r := LoadFrames(SplitLines(file), snap);
    }

    method LoadFrames(frames: seq<bytes>, ghost snap: Option<Snapshot<E>>) returns (r: Result<(), nat>)
      requires Valid() && TotalLength(frames) == |file|
      requires snapshotSequence == SnapshotSequence(snap) && Holds(snap, [])
      modifies this
      ensures Outcome(ScanLines(format, frames), old(file), old(quarantine), r, snap)
    {
      var stop, validEnd, log := ReadFrames(frames, snap);
      if stop.None? { return Ok(()); }
      var finalIndex := LastInked(frames);
      r := StopAt(frames, stop.value, stop.value == finalIndex, validEnd, snap, log);
    }

    /** Reads lines up to the first that is neither blank nor a frame. */
    method ReadFrames(frames: seq<bytes>, ghost snap: Option<Snapshot<E>>)
      returns (stop: Option<nat>, validEnd: nat, ghost log: seq<Record<E>>)
      requires Valid() && snapshotSequence == SnapshotSequence(snap) && Holds(snap, [])
      modifies this`sequence, this`records, this`idempotency
      ensures Valid() && Holds(snap, log)
      ensures stop.None? ==> ScanLines(format, frames) == Whole(log)
      ensures stop.Some? ==>
                && stop.value < |frames| && ReadUpTo(format, frames, stop.value, log, validEnd)
                && !Blank(frames[stop.value]) && FrameRecords(format, frames[stop.value]).None?
    {
      validEnd, log := 0, [];
      for index := 0 to |frames|
        invariant Valid() && snapshotSequence == SnapshotSequence(snap) && Holds(snap, log)
        invariant ReadUpTo(format, frames, index, log, validEnd)
      {
        var read := LoadFrame(frames[index], snap, log);
        if read.None? {
          TakeAll(log);
          return Some(index), validEnd, log;
        }
        ReadGood(format, frames, index, log, validEnd, read.value);
        log := log + read.value;
        validEnd := validEnd + |frames[index]|;
      }
      AllRead(format, frames, log, validEnd);
      return None, validEnd, log;
    }

    /** What start-up leaves behind, by what the scan found. */
    ghost predicate Outcome(scan: Scan<E>, was: bytes, quarantined: seq<bytes>, r: Result<(), nat>,
                            snap: Option<Snapshot<E>>)
      reads this
    {
      match scan
      case Damaged(line) => r == Err(line) && file == was && quarantine == quarantined
      case Whole(log) => r == Ok(()) && Valid() && Holds(snap, log) && file == was && quarantine == quarantined
      case Torn(log, end, tail) =>
        r == Ok(()) && Valid() && Holds(snap, log) && end <= |was| && file == was[..end]
            && quarantine == quarantined + [tail]
    }

    /** An unreadable line: the last one is cut off, any other refuses the start. */
    method StopAt(frames: seq<bytes>, index: nat, isFinal: bool, validEnd: nat, ghost snap: Option<Snapshot<E>>,
                  ghost log: seq<Record<E>>)
      returns (r: Result<(), nat>)
      requires Valid() && Holds(snap, log) && TotalLength(frames) == |file|
      requires index < |frames| && ReadUpTo(format, frames, index, log, validEnd)
      requires !Blank(frames[index]) && FrameRecords(format, frames[index]).None?
                 && (isFinal <==> index == LastInked(frames))
      modifies this`file, this`quarantine
      ensures Outcome(ScanLines(format, frames), old(file), old(quarantine), r, snap)
    {
      ReadBad(format, frames, index, log, validEnd);
      if isFinal {
        QuarantineTail(frames[index], validEnd);
        return Ok(());
      }
      return Err(index + 1);
    }

    /** Reads one line: nothing from a blank one, the records of a frame, None from anything else. */
    method LoadFrame(raw: bytes, ghost snap: Option<Snapshot<E>>, ghost log: seq<Record<E>>)
      returns (read: Option<seq<Record<E>>>)
      requires Valid() && snapshotSequence == SnapshotSequence(snap) && Holds(snap, log)
      modifies this`sequence, this`records, this`idempotency
      ensures Valid() && Holds(snap, log + if read.None? then [] else read.value)
      ensures read == if Blank(raw) then Some([]) else FrameRecords(format, raw)
    {
      TakeAll(log);
      if Blank(raw) { return Some([]); }
      read := FrameRecords(format, raw);
      if read.Some? { Admit(read.value, snap, log); }
    }

    method QuarantineTail(raw: bytes, validEnd: nat)
      requires validEnd <= |file|
      modifies this`file, this`quarantine
      ensures quarantine == old(quarantine) + [raw] && file == old(file)[..validEnd]
    {
      quarantine := quarantine + [raw];
      file := file[..validEnd];
    }

    ghost predicate Holds(snap: Option<Snapshot<E>>, log: seq<Record<E>>)
      reads this
    {
      records == LoadedRecords(snap, log) && sequence == LoadedSequence(snap, log)
    }

    /** Gives every event the next sequence number. */
    method NumberEvents(events: seq<E>) returns (added: seq<Record<E>>)
      modifies this`sequence
      ensures sequence == old(sequence) + |events| && added == EventRecords(old(sequence), events)
    {
      var start := sequence;
      added := [];
      for i := 0 to |events|
        invariant sequence == start + i && added == EventRecords(start, events)[..i]
      {
        sequence := sequence + 1;
        added := added + [EventRecord(sequence, events[i])];
      }
    }

    /**
     Commits one frame. The sequence moves before the capacity check, so a refused commit
     (`capacity` false) leaves a gap and nothing else.
     */
    method AppendFrame(events: seq<E>, versions: map<string, int>, idem: Option<Idempotency<E>>,
                       commitId: string, capacity: bool)
      returns (stored: bool)
      requires Valid()
      modifies this`file, this`sequence, this`records, this`idempotency
      ensures Valid() && stored == capacity
      ensures sequence == old(sequence) + |events|
      ensures !stored ==> file == old(file) && records == old(records) && idempotency == old(idempotency)
      ensures stored ==> records == old(records) + MakeRecords(old(sequence), events, idem)
      ensures stored ==> file == old(file)
                              + Written(format, MakeEnvelope(format, old(sequence), events, versions, idem, commitId))
    {
      var start := sequence;
      var added := NumberEvents(events);
      added := added + IdempotencyRecords(sequence, idem);
      stored := capacity;
      if stored {
        file := file + Written(format, MakeEnvelope(format, start, events, versions, idem, commitId));
        Remember(start, events, idem, added);
      }
    }

    /** Takes a stored frame into the memory. */
    method Remember(start: int, events: seq<E>, idem: Option<Idempotency<E>>, added: seq<Record<E>>)
      requires idempotency == IndexOf(records) && MaxSequence(0, records) <= start && sequence == start + |events|
      requires added == MakeRecords(start, events, idem)
      modifies this`records, this`idempotency
      ensures Valid() && records == old(records) + added
    {
      FrameAppended(records, start, events, idem);
      records := records + added;
      if idem.Some? {
        idempotency := idempotency[idem.value.key := (idem.value.requestHash, idem.value.response)];
      }
    }

    /** The file a snapshot writes is one start-up accepts, and gives back the records and the sequence. */
    method TakeSnapshot() returns (raw: SnapshotFile<E>)
      requires Valid()
      ensures DecodeSnapshot(format, raw) == Some(Snapshot(sequence, records))
    {
      MaxSequenceMember(0, records);
      raw := SnapshotFile(SNAPSHOT_FORMAT_VERSION, sequence, format.canonicalHash(records), records);
    }

    /** The recorded answer for a key; a different request under the same key is a conflict. */
    method IdempotentResult(key: Key, requestHash: string) returns (r: Result<Option<seq<E>>, ()>)
      ensures key !in idempotency ==> r == Ok(None)
      ensures key in idempotency && idempotency[key].0 == requestHash ==> r == Ok(Some(idempotency[key].1))
      ensures key in idempotency && idempotency[key].0 != requestHash ==> r == Err(())
    {
      if key !in idempotency { return Ok(None); }
      var (hash, response) := idempotency[key];
      if hash != requestHash { return Err(()); }
      return Ok(Some(response));
    }
  }

  // ---------- Proof of the start-up loop ----------

  /** After `index` lines: the scan of the whole is the scan of the rest, shifted by what was read. */
  ghost predicate ReadUpTo<E>(f: Format<E>, frames: seq<bytes>, index: nat, log: seq<Record<E>>, validEnd: nat) {
    && index <= |frames|
    && ScanLines(f, frames) == Shift(log, validEnd, index, ScanLines(f, frames[index..]))
    && validEnd == TotalLength(frames[..index]) <= TotalLength(frames)
  }

  lemma AllRead<E>(f: Format<E>, frames: seq<bytes>, log: seq<Record<E>>, end: nat)
    requires ReadUpTo(f, frames, |frames|, log, end)
    ensures ScanLines(f, frames) == Whole(log)
  {
    TakeAll(log);
  }

  lemma ReadGood<E>(f: Format<E>, frames: seq<bytes>, i: nat, log: seq<Record<E>>, end: nat, rs: seq<Record<E>>)
    requires i < |frames| && ReadUpTo(f, frames, i, log, end)
    requires if Blank(frames[i]) then rs == [] else FrameRecords(f, frames[i]) == Some(rs)
    ensures ReadUpTo(f, frames, i + 1, log + rs, end + |frames[i]|)
  {
    assert frames[i..][0] == frames[i] && frames[i..][1..] == frames[i + 1..];
    assert frames[..i + 1][..i] == frames[..i];
    TotalLengthMonotone(frames, i + 1);
    ShiftShift(log, end, i, rs, |frames[i]|, 1, ScanLines(f, frames[i + 1..]));
  }

  lemma ReadBad<E>(f: Format<E>, frames: seq<bytes>, i: nat, log: seq<Record<E>>, end: nat)
    requires i < |frames| && ReadUpTo(f, frames, i, log, end)
    requires !Blank(frames[i]) && FrameRecords(f, frames[i]).None?
    ensures ScanLines(f, frames) == if i == LastInked(frames) then Torn(log, end, frames[i]) else Damaged(i + 1)
  {
    assert frames[i..][0] == frames[i] && frames[i..][1..] == frames[i + 1..];
    assert log + [] == log;
    LastInkedIff(frames, i);
  }

  lemma LastInkedIff(lines: seq<bytes>, i: nat)
    requires i < |lines| && !Blank(lines[i])
    ensures AllBlank(lines[i + 1..]) <==> i == LastInked(lines)
  {
    var last := LastInked(lines);
    if i < last {
      assert !Blank(lines[i + 1..][last - i - 1]);
    }
  }

  lemma LoadedAppend<E>(snap: Option<Snapshot<E>>, log: seq<Record<E>>, more: seq<Record<E>>)
    ensures LoadedRecords(snap, log + more) == LoadedRecords(snap, log) + Newer(more, SnapshotSequence(snap))
    ensures LoadedSequence(snap, log + more)
         == MaxSequence(LoadedSequence(snap, log), Newer(more, SnapshotSequence(snap)))
  {
    var s := SnapshotSequence(snap);
    NewerAppend(log, more, s);
    MaxSequenceAppend(s, Newer(log, s), Newer(more, s));
    Associative(SnapshotRecords(snap), Newer(log, s), Newer(more, s));
  }

  lemma FrameAppended<E>(records: seq<Record<E>>, start: int, events: seq<E>, idem: Option<Idempotency<E>>)
    requires MaxSequence(0, records) <= start
    ensures MaxSequence(0, records + MakeRecords(start, events, idem)) <= start + |events|
    ensures IndexOf(records + MakeRecords(start, events, idem))
         == if idem.None? then IndexOf(records)
            else IndexOf(records)[idem.value.key := (idem.value.requestHash, idem.value.response)]
  {
    var made := MakeRecords(start, events, idem);
    MaxSequenceAppend(0, records, made);
    MaxSequenceBound(MaxSequence(0, records), made, start + |events|);
    FrameIndexed(records, start, events, idem);
  }

  lemma FrameIndexed<E>(records: seq<Record<E>>, start: int, events: seq<E>, idem: Option<Idempotency<E>>)
    ensures IndexOf(records + MakeRecords(start, events, idem))
         == if idem.None? then IndexOf(records)
            else IndexOf(records)[idem.value.key := (idem.value.requestHash, idem.value.response)]
  {
    var es := EventRecords(start, events);
    IndexEvents(records, es);
    if idem.Some? {
      var r := IdempotencyRecord(start + |events|, idem.value.key, idem.value.requestHash, idem.value.response);
      assert records + MakeRecords(start, events, idem) == (records + es) + [r];
      SnocFacts(0, records + es, r);
    } else {
      assert records + MakeRecords(start, events, idem) == records + es;
    }
  }

  function TotalLength(lines: seq<bytes>): nat {
    if lines == [] then 0 else TotalLength(lines[..|lines| - 1]) + |lines[|lines| - 1]|
  }

  lemma TotalLengthMonotone(lines: seq<bytes>, k: nat)
    requires k <= |lines|
    ensures TotalLength(lines[..k]) <= TotalLength(lines)
  {
    if k < |lines| {
      assert lines[..|lines| - 1][..k] == lines[..k];
      TotalLengthMonotone(lines[..|lines| - 1], k);
    } else {
      assert lines[..k] == lines;
    }
  }

  lemma TotalLengthCons(line: bytes, lines: seq<bytes>)
    ensures TotalLength([line] + lines) == |line| + TotalLength(lines)
  {
    if lines != [] {
      assert ([line] + lines)[..|lines|] == [line] + lines[..|lines| - 1];
      TotalLengthCons(line, lines[..|lines| - 1]);
    }
  }

  lemma SplitLinesLength(s: bytes)
    ensures TotalLength(SplitLines(s)) == |s|
  {
    if s != [] {
      var n := LineLength(s);
      SplitLinesLength(s[n..]);
      TotalLengthCons(s[..n], SplitLines(s[n..]));
    }
  }

  lemma IndexEvents<E>(records: seq<Record<E>>, events: seq<Record<E>>)
    requires forall i :: 0 <= i < |events| ==> events[i].EventRecord?
    ensures IndexOf(records + events) == IndexOf(records)
  {
    if events == [] {
      assert records + events == records;
    } else {
      assert (records + events)[..|records + events| - 1] == records + events[..|events| - 1];
      IndexEvents(records, events[..|events| - 1]);
    }
  }
}

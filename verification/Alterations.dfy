/** Journals altered on disk: which changes a start notices, where it stops, and which it cannot see. */
module Alterations {
  import opened Prelude
  import opened Journal
  import opened Recovery

  /** The records of two frames agree in length, in both hashes, and in their first and last number. */
  predicate Alike<E>(f: Format<E>, a: seq<Record<E>>, b: seq<Record<E>>) {
    && f.size(a) == f.size(b) && f.checksum(a) == f.checksum(b) && f.canonicalHash(a) == f.canonicalHash(b)
    && (a != [] && b != [] ==>
          a[0].sequence == b[0].sequence && a[|a| - 1].sequence == b[|b| - 1].sequence)
  }

  lemma ReadBack<E(!new)>(f: Format<E>, text: Text<E>)
    requires IsSyntax(f.text)
    ensures f.text.decode(f.text.encode(text) + [LF]) == Some(text)
  {
    assert SyntaxBlank([LF]);
  }

  /**
     A frame whose records were exchanged is a frame if and only if the new records agree with the old
     in everything the header says of them.
   */
  lemma AlteredRecords<E(!new)>(f: Format<E>, e: Envelope<E>, rs: seq<Record<E>>)
    requires IsSyntax(f.text) && EnvelopeOk(f, e)
    ensures !Alike(f, rs, e.records) ==> FrameRecords(f, Written(f, e.(records := rs))) == None
    ensures rs != [] && e.records != [] && Alike(f, rs, e.records) ==>
              FrameRecords(f, Written(f, e.(records := rs))) == Some(rs)
  {
    ReadBack(f, Object(e.(records := rs)));
  }

  /** A frame with another version, length, checksum or payload hash in its header is none. */
  lemma AlteredHeader<E(!new)>(f: Format<E>, e: Envelope<E>, g: Envelope<E>)
    requires IsSyntax(f.text) && EnvelopeOk(f, e) && g.records == e.records
    requires (g.formatVersion, g.length, g.checksum, g.payloadHash)
          != (e.formatVersion, e.length, e.checksum, e.payloadHash)
    ensures FrameRecords(f, Written(f, g)) == None
  {
    ReadBack(f, Object(g));
  }

  /** The numbers of a frame with records are checked too. */
  lemma AlteredNumbers<E(!new)>(f: Format<E>, e: Envelope<E>, g: Envelope<E>)
    requires IsSyntax(f.text) && EnvelopeOk(f, e) && g.records == e.records != []
    requires (g.sequenceStart, g.sequenceEnd) != (e.sequenceStart, e.sequenceEnd)
    ensures FrameRecords(f, Written(f, g)) == None
  {
    ReadBack(f, Object(g));
  }

  /** No check covers the commit's id or the versions it expected. */
  lemma UncheckedHeader<E(!new)>(f: Format<E>, e: Envelope<E>, id: string, versions: map<string, int>)
    requires IsSyntax(f.text) && EnvelopeOk(f, e)
    ensures FrameRecords(f, Written(f, e.(commitId := id, expectedVersions := versions))) == Some(e.records)
  {
    ReadBack(f, Object(e.(commitId := id, expectedVersions := versions)));
  }

  /** A line of the first format carries no checks: it reads as its records. */
  lemma FirstFormatRead<E(!new)>(f: Format<E>, rs: seq<Record<E>>)
    requires IsSyntax(f.text)
    ensures FrameRecords(f, f.text.encode(Legacy(rs)) + [LF]) == Some(rs)
  {
    ReadBack(f, Legacy(rs));
  }

  // ---------- Where a start stops ----------

  /** Any one line with ink that is no frame, between frames: damage at its line, or a torn tail when it is last. */
  lemma BadLine<E(!new)>(f: Format<E>, es: seq<Envelope<E>>, line: bytes, more: seq<Envelope<E>>)
    requires IsSyntax(f.text) && AllOk(f, es) && AllOk(f, more)
    requires SplitLines(line) == [line] && EndsLine(line) && !Blank(line) && FrameRecords(f, line) == None
    ensures ScanFile(f, WrittenAll(f, es) + (line + WrittenAll(f, more)))
         == if more == [] then Torn(RecordsOf(es), |WrittenAll(f, es)|, line) else Damaged(|es| + 1)
  {
    var rest := line + WrittenAll(f, more);
    ScanWritten(f, es);
    ScanFileAppend(f, WrittenAll(f, es), rest, RecordsOf(es));
    OneLineEach(f, es);
    SplitAppend(line, WrittenAll(f, more));
    var lines := SplitLines(WrittenAll(f, more));
    ConsTail(line, lines);
    if more == [] {
      TakeAll(RecordsOf(es));
    } else {
      SplitFirstInked(f, more);
    }
  }

  lemma WrittenLine<E(!new)>(f: Format<E>, e: Envelope<E>)
    requires IsSyntax(f.text)
    ensures SplitLines(Written(f, e)) == [Written(f, e)] && EndsLine(Written(f, e)) && !Blank(Written(f, e))
  {
    assert OneLine(f.text.encode(Object(e)));
    SplitOneLine(f.text.encode(Object(e)), true);
    assert !IsBlankByte(Written(f, e)[0]);
  }

  lemma {:induction false} OneLineEach<E(!new)>(f: Format<E>, es: seq<Envelope<E>>)
    requires IsSyntax(f.text) && AllOk(f, es)
    ensures |SplitLines(WrittenAll(f, es))| == |es|
  {
    if es != [] {
      var front, last := es[..|es| - 1], es[|es| - 1];
      OneLineEach(f, front);
      ScanWritten(f, front);
      SplitAppend(WrittenAll(f, front), Written(f, last));
      WrittenLine(f, last);
    }
  }

  /**
     A journal with one frame's records exchanged for others that its header does not describe is never
     loaded as if nothing had happened: the start refuses at that line, or, when the frame is the last,
     cuts it off.
   */
  lemma AlterationIsFound<E(!new)>(
    f: Format<E>, es: seq<Envelope<E>>, e: Envelope<E>, rs: seq<Record<E>>, more: seq<Envelope<E>>)
    requires IsSyntax(f.text) && AllOk(f, es) && EnvelopeOk(f, e) && AllOk(f, more) && !Alike(f, rs, e.records)
    ensures var line := Written(f, e.(records := rs));
            var file := WrittenAll(f, es) + (line + WrittenAll(f, more));
            && ScanFile(f, file)
               == (if more == [] then Torn(RecordsOf(es), |WrittenAll(f, es)|, line) else Damaged(|es| + 1))
            && Reload(f, file) == if more == [] then Some((WrittenAll(f, es), RecordsOf(es))) else None
  {
    var line := Written(f, e.(records := rs));
    AlteredRecords(f, e, rs);
    WrittenLine(f, e.(records := rs));
    BadLine(f, es, line, more);
    TakePrefix(WrittenAll(f, es), line + WrittenAll(f, more));
  }

  // ---------- Lines ----------

  predicate IsBreak(b: byte) {
    b == LF || b == CR
  }

  /** A line of a split: breaks only at its end, where CR LF counts as one. */
  predicate IsLine(s: bytes, last: bool) {
    var n := |s|;
    && n > 0
    && (forall i :: 0 <= i < n - 2 ==> !IsBreak(s[i]))
    && (n > 1 && IsBreak(s[n - 2]) ==> s[n - 2] == CR && s[n - 1] == LF)
    && (last || IsBreak(s[n - 1]))
  }

  function Concatenated(lines: seq<bytes>): bytes {
    if lines == [] then [] else lines[0] + Concatenated(lines[1..])
  }

  lemma {:induction false} FirstLine(s: bytes)
    requires s != []
    ensures var n := LineLength(s);
            && IsLine(s[..n], n == |s|)
            && !(n < |s| && s[n - 1] == CR && s[n] == LF)
  {
    if !IsBreak(s[0]) && |s| > 1 {
      FirstLine(s[1..]);
      var n := LineLength(s[1..]);
      assert s[..n + 1] == [s[0]] + s[1..][..n];
    }
  }

  /** The lines of a file make up the file, and are broken at every LF, CR and CR LF and nowhere else. */
  lemma {:induction false} SplitExact(s: bytes)
    ensures var lines := SplitLines(s);
            && Concatenated(lines) == s
            && (forall i :: 0 <= i < |lines| ==> IsLine(lines[i], i == |lines| - 1))
            && (forall i :: 0 <= i < |lines| - 1 ==> !(lines[i][|lines[i]| - 1] == CR && lines[i + 1][0] == LF))
    decreases |s|
  {
    if s != [] {
      var n := LineLength(s);
      var rest := SplitLines(s[n..]);
      FirstLine(s);
      SplitExact(s[n..]);
      assert s == s[..n] + s[n..];
      ConsTail(s[..n], rest);
      var lines := SplitLines(s);
      assert lines == [s[..n]] + rest;
      if rest != [] { assert rest[0] == s[n..][..LineLength(s[n..])]; }
      forall i | 0 <= i < |lines| ensures IsLine(lines[i], i == |lines| - 1) {
        if i > 0 { assert lines[i] == rest[i - 1]; }
      }
      forall i | 0 <= i < |lines| - 1 ensures !(lines[i][|lines[i]| - 1] == CR && lines[i + 1][0] == LF) {
        if i > 0 { assert lines[i] == rest[i - 1] && lines[i + 1] == rest[i]; }
      }
    }
  }

  /** What counts as blank is ASCII white space: tab to carriage return, and the space. */
  lemma BlankBytes()
    ensures (set b: byte | IsBlankByte(b)) == {9, 10, 11, 12, 13, 32}
  {}

  // ---------- Snapshots ----------

  /** What a process can hold: no record is ahead of its sequence number. */
  predicate Holdable<E>(sequence: int, records: seq<Record<E>>) {
    sequence >= 0 && forall i :: 0 <= i < |records| ==> records[i].sequence <= sequence
  }

  /** A start accepts exactly the snapshots some process could have written, and reads them as that process's. */
  lemma SnapshotAcceptedIff<E>(f: Format<E>, raw: SnapshotFile<E>)
    ensures DecodeSnapshot(f, raw).Some? <==>
              raw.SnapshotFile? && Holdable(raw.sequence, raw.records)
              && raw == SnapshotFile(SNAPSHOT_FORMAT_VERSION, raw.sequence, f.canonicalHash(raw.records), raw.records)
    ensures DecodeSnapshot(f, raw).Some? ==> DecodeSnapshot(f, raw).value == Snapshot(raw.sequence, raw.records)
  {}

  /** A snapshot whose records were exchanged is refused unless their hash is the same. */
  lemma AlteredSnapshot<E>(f: Format<E>, sequence: int, records: seq<Record<E>>, rs: seq<Record<E>>)
    requires f.canonicalHash(rs) != f.canonicalHash(records)
    ensures DecodeSnapshot(f, SnapshotFile(SNAPSHOT_FORMAT_VERSION, sequence, f.canonicalHash(records), rs)) == None
  {}
}

/**
 Crash recovery of the journal file: what start-up reads back after any chain of commits,
 torn writes and restarts, and exactly which tear it does not survive.
 */
module Recovery {
  import opened Prelude
  import opened Journal

  // ---------- Lines and scans compose ----------

  lemma {:induction false} SplitAppend(a: bytes, b: bytes)
    requires EndsLine(a)
    ensures SplitLines(a + b) == SplitLines(a) + SplitLines(b)
    decreases |a|
  {
    if a == [] {
      assert a + b == b;
    } else {
      var n := LineLength(a);
      LineLengthAppend(a, b);
      assert (a + b)[..n] == a[..n] && (a + b)[n..] == a[n..] + b;
      SplitAppend(a[n..], b);
    }
  }

  lemma {:induction false} LineLengthAppend(a: bytes, b: bytes)
    requires a != [] && EndsLine(a)
    ensures LineLength(a + b) == LineLength(a)
  {
    if a[0] != LF && a[0] != CR {
      assert (a + b)[1..] == a[1..] + b;
      LineLengthAppend(a[1..], b);
    }
  }

  lemma {:induction false} ScanAppend<E>(f: Format<E>, xs: seq<bytes>, ys: seq<bytes>, rs: seq<Record<E>>)
    requires ScanLines(f, xs) == Whole(rs)
    ensures ScanLines(f, xs + ys) == Shift(rs, TotalLength(xs), |xs|, ScanLines(f, ys))
  {
    if xs == [] {
      assert xs + ys == ys;
      if !ScanLines(f, ys).Damaged? { assert rs + ScanLines(f, ys).records == ScanLines(f, ys).records; }
    } else {
      assert xs == [xs[0]] + xs[1..];
      assert (xs + ys)[1..] == xs[1..] + ys;
      var head := if Blank(xs[0]) then [] else FrameRecords(f, xs[0]).value;
      var rest := ScanLines(f, xs[1..]).records;
      ScanAppend(f, xs[1..], ys, rest);
      TotalLengthCons(xs[0], xs[1..]);
      ShiftShift(head, |xs[0]|, 1, rest, TotalLength(xs[1..]), |xs| - 1, ScanLines(f, ys));
      assert head + rest == rs;
    }
  }

  lemma ScanFileAppend<E>(f: Format<E>, a: bytes, b: bytes, rs: seq<Record<E>>)
    requires EndsLine(a) && ScanFile(f, a) == Whole(rs)
    ensures ScanFile(f, a + b) == Shift(rs, |a|, |SplitLines(a)|, ScanFile(f, b))
  {
    SplitAppend(a, b);
    ScanAppend(f, SplitLines(a), SplitLines(b), rs);
    SplitLinesLength(a);
  }

  predicate OneLine(s: bytes) {
    s != [] && forall i :: 0 <= i < |s| ==> s[i] != LF && s[i] != CR
  }

  lemma {:induction false} SplitOneLine(s: bytes, ended: bool)
    requires OneLine(s)
    ensures SplitLines(if ended then s + [LF] else s) == [if ended then s + [LF] else s]
  {
    var t := if ended then s + [LF] else s;
    LineLengthOneLine(s, ended);
    assert t[..|t|] == t && t[|t|..] == [];
  }

  lemma {:induction false} LineLengthOneLine(s: bytes, ended: bool)
    requires OneLine(s)
    ensures LineLength(if ended then s + [LF] else s) == |s| + if ended then 1 else 0
  {
    var t := if ended then s + [LF] else s;
    if |s| > 1 {
      assert t[1..] == if ended then s[1..] + [LF] else s[1..];
      LineLengthOneLine(s[1..], ended);
    } else if ended {
      assert t[1..] == [LF];
    }
  }

  /** A scan is damaged exactly when an unreadable line is not the last line with ink. */
  lemma {:induction false} DamagedIff<E>(f: Format<E>, lines: seq<bytes>)
    ensures ScanLines(f, lines).Damaged? <==>
              exists i :: 0 <= i < LastInked(lines) && !Blank(lines[i]) && FrameRecords(f, lines[i]).None?
  {
    if lines != [] {
      var rest := lines[1..];
      DamagedIff(f, rest);
      LastInkedTail(lines);
      if exists i :: 0 <= i < LastInked(rest) && !Blank(rest[i]) && FrameRecords(f, rest[i]).None? {
        var i :| 0 <= i < LastInked(rest) && !Blank(rest[i]) && FrameRecords(f, rest[i]).None?;
        assert lines[i + 1] == rest[i];
      }
      if exists i :: 0 <= i < LastInked(lines) && !Blank(lines[i]) && FrameRecords(f, lines[i]).None? {
        var i :| 0 <= i < LastInked(lines) && !Blank(lines[i]) && FrameRecords(f, lines[i]).None?;
        if i > 0 { assert rest[i - 1] == lines[i]; }
      }
      if !Blank(lines[0]) { LastInkedIff(lines, 0); }
    }
  }

  lemma LastInkedTail(lines: seq<bytes>)
    requires lines != []
    ensures LastInked(lines[1..]) >= 0 ==> LastInked(lines) == LastInked(lines[1..]) + 1
    ensures LastInked(lines[1..]) < 0 ==> LastInked(lines) <= 0
  {
    var rest := lines[1..];
    var i, j := LastInked(rest), LastInked(lines);
    if i >= 0 { assert lines[i + 1] == rest[i]; }
    if j > 0 { assert rest[j - 1] == lines[j]; }
  }

  // ---------- One torn frame ----------

  /** What a scan makes of the first `k` bytes of one written frame. */
  lemma TornFrame<E(!new)>(f: Format<E>, e: Envelope<E>, k: nat)
    requires IsSyntax(f.text) && EnvelopeOk(f, e) && k <= |Written(f, e)|
    ensures var s := ScanFile(f, Written(f, e)[..k]);
            if k == 0 then s == Whole([])
            else if k + 1 < |Written(f, e)| then s == Torn([], 0, Written(f, e)[..k])
            else s == Whole(e.records)
  {
    var body := f.text.encode(Object(e));
    var piece := Written(f, e)[..k];
    if k > 0 {
      var ended := k == |body| + 1;
      var s := if ended then body else piece;
      assert s == body[..if ended then |body| else k];
      assert OneLine(s);
      SplitOneLine(s, ended);
      assert piece == if ended then s + [LF] else s;
      assert !Blank(piece) by { assert piece[0] == body[0]; }
      assert ScanFile(f, piece) == ScanLines(f, [piece]);
      assert AllBlank([piece][1..]);
      assert ScanLines(f, [piece][1..]) == Whole([]);
      if k < |body| {
        assert piece == body[..k];
      } else {
        var tail := if ended then [LF] else [];
        assert piece == body + tail && SyntaxBlank(tail);
        assert f.text.decode(piece) == Some(Object(e));
        assert e.records + [] == e.records;
      }
    }
  }

  // ---------- Restarts ----------

  /** Start-up as a function of the file: what stays of it, and the records read; None refuses. */
  function Reload<E>(f: Format<E>, file: bytes): Option<(bytes, seq<Record<E>>)> {
    match ScanFile(f, file)
    case Whole(rs) => Some((file, rs))
    case Torn(rs, end, _) => if end <= |file| then Some((file[..end], rs)) else None
    case Damaged(_) => None
  }

  function WrittenAll<E>(f: Format<E>, es: seq<Envelope<E>>): bytes {
    if es == [] then [] else WrittenAll(f, es[..|es| - 1]) + Written(f, es[|es| - 1])
  }

  function RecordsOf<E>(es: seq<Envelope<E>>): seq<Record<E>> {
    if es == [] then [] else RecordsOf(es[..|es| - 1]) + es[|es| - 1].records
  }

  ghost predicate AllOk<E>(f: Format<E>, es: seq<Envelope<E>>) {
    forall i :: 0 <= i < |es| ==> EnvelopeOk(f, es[i])
  }

  lemma WrittenAllAppend<E>(f: Format<E>, a: seq<Envelope<E>>, b: seq<Envelope<E>>)
    ensures WrittenAll(f, a + b) == WrittenAll(f, a) + WrittenAll(f, b)
    ensures RecordsOf(a + b) == RecordsOf(a) + RecordsOf(b)
  {
    TakeAll(a);
    if b != [] {
      var front, last := b[..|b| - 1], b[|b| - 1];
      WrittenAllAppend(f, a, front);
      FrontAndLast(b);
      Associative(a, front, [last]);
      FrontOfSnoc(a + front, last);
      Associative(WrittenAll(f, a), WrittenAll(f, front), Written(f, last));
      Associative(RecordsOf(a), RecordsOf(front), last.records);
    }
  }

  /** Writing acknowledged frames and scanning them back is the identity on records. */
  lemma {:induction false} ScanWritten<E(!new)>(f: Format<E>, es: seq<Envelope<E>>)
    requires IsSyntax(f.text) && AllOk(f, es)
    ensures ScanFile(f, WrittenAll(f, es)) == Whole(RecordsOf(es)) && EndsLine(WrittenAll(f, es))
  {
    if es != [] {
      var front, last := es[..|es| - 1], es[|es| - 1];
      ScanWritten(f, front);
      ScanFileAppend(f, WrittenAll(f, front), Written(f, last), RecordsOf(front));
      TornFrame(f, last, |Written(f, last)|);
      assert Written(f, last)[..|Written(f, last)|] == Written(f, last);
    }
  }

  /** All or nothing: a commit cut at byte `k` survives whole or leaves no trace. */
  lemma CutCommit<E(!new)>(f: Format<E>, es: seq<Envelope<E>>, e: Envelope<E>, k: nat)
    requires IsSyntax(f.text) && AllOk(f, es) && EnvelopeOk(f, e) && k <= |Written(f, e)|
    ensures Reload(f, WrittenAll(f, es) + Written(f, e)[..k]) == Some(
              if k + 1 < |Written(f, e)| then (WrittenAll(f, es), RecordsOf(es))
              else (WrittenAll(f, es) + Written(f, e)[..k], RecordsOf(es) + e.records))
  {
    var a, b := WrittenAll(f, es), Written(f, e)[..k];
    ScanWritten(f, es);
    ScanFileAppend(f, a, b, RecordsOf(es));
    TornFrame(f, e, k);
    TakeAll(RecordsOf(es));
    TakePrefix(a, b);
    TakeAll(a);
  }

  /** One process life: frames it committed, then the frame whose write a crash cut at `tear` bytes. */
  datatype Life<+E> = Life(committed: seq<Envelope<E>>, inFlight: Envelope<E>, tear: nat)

  ghost predicate LifeOk<E>(f: Format<E>, life: Life<E>) {
    AllOk(f, life.committed) && EnvelopeOk(f, life.inFlight) && life.tear <= |Written(f, life.inFlight)|
  }

  predicate TornBeforeNewline<E>(f: Format<E>, life: Life<E>) {
    life.tear + 1 == |Written(f, life.inFlight)|
  }

  function Survivors<E>(f: Format<E>, life: Life<E>): seq<Envelope<E>> {
    life.committed + if life.tear + 1 < |Written(f, life.inFlight)| then [] else [life.inFlight]
  }

  function AllSurvivors<E>(f: Format<E>, lives: seq<Life<E>>): seq<Envelope<E>> {
    if lives == [] then [] else AllSurvivors(f, lives[..|lives| - 1]) + Survivors(f, lives[|lives| - 1])
  }

  /** The file after a chain of lives, each starting from what the previous one left; None if one cannot start. */
  function Disk<E>(f: Format<E>, lives: seq<Life<E>>): Option<bytes> {
    if lives == [] then Some([]) else
      var last := lives[|lives| - 1];
      match Disk(f, lives[..|lives| - 1])
      case None => None
      case Some(file) =>
        match Reload(f, file)
        case None => None
        case Some((kept, _)) =>
          Some(kept + WrittenAll(f, last.committed)
              + Written(f, last.inFlight)[..min(last.tear, |Written(f, last.inFlight)|)])
  }

  function min(a: nat, b: nat): nat {
    if a < b then a else b
  }

  /**
   Every chain of lives in which no crash but the last falls exactly between a frame body and its
   newline is read back as the acknowledged frames plus the in-flight frames that reached the disk
   whole; if the last crash also avoids that point, the file is those frames and nothing else.
   */
  lemma {:induction false} CrashChain<E(!new)>(f: Format<E>, lives: seq<Life<E>>)
    requires IsSyntax(f.text)
    requires forall i :: 0 <= i < |lives| ==> LifeOk(f, lives[i])
    requires forall i :: 0 <= i < |lives| - 1 ==> !TornBeforeNewline(f, lives[i])
    ensures AllOk(f, AllSurvivors(f, lives))
    ensures Disk(f, lives).Some? && Reload(f, Disk(f, lives).value).Some?
    ensures Reload(f, Disk(f, lives).value).value.1 == RecordsOf(AllSurvivors(f, lives))
    ensures lives == [] || !TornBeforeNewline(f, lives[|lives| - 1]) ==>
              Reload(f, Disk(f, lives).value).value.0 == WrittenAll(f, AllSurvivors(f, lives))
  {
    if lives != [] {
      CrashChain(f, lives[..|lives| - 1]);
      OneLife(f, AllSurvivors(f, lives[..|lives| - 1]), lives[|lives| - 1]);
    }
  }

  lemma OneLife<E(!new)>(f: Format<E>, before: seq<Envelope<E>>, life: Life<E>)
    requires IsSyntax(f.text) && AllOk(f, before) && LifeOk(f, life)
    ensures var file := WrittenAll(f, before) + WrittenAll(f, life.committed) + Written(f, life.inFlight)[..life.tear];
            && AllOk(f, before + Survivors(f, life))
            && Reload(f, file).Some?
            && Reload(f, file).value.1 == RecordsOf(before + Survivors(f, life))
            && (!TornBeforeNewline(f, life) ==> Reload(f, file).value.0 == WrittenAll(f, before + Survivors(f, life)))
  {
    var es := before + life.committed;
    AllOkAppend(f, before, life.committed);
    SurvivorsOk(f, life);
    AllOkAppend(f, before, Survivors(f, life));
    WrittenAllAppend(f, before, life.committed);
    CutCommit(f, es, life.inFlight, life.tear);
    CutResult(f, before, life);
  }

  lemma AllOkAppend<E>(f: Format<E>, a: seq<Envelope<E>>, b: seq<Envelope<E>>)
    requires AllOk(f, a) && AllOk(f, b)
    ensures AllOk(f, a + b)
  {}

  lemma SurvivorsOk<E>(f: Format<E>, life: Life<E>)
    requires LifeOk(f, life)
    ensures AllOk(f, Survivors(f, life))
  {}

  lemma CutResult<E>(f: Format<E>, before: seq<Envelope<E>>, life: Life<E>)
    requires life.tear <= |Written(f, life.inFlight)|
    ensures var es, w := before + life.committed, Written(f, life.inFlight);
            if life.tear + 1 < |w| then before + Survivors(f, life) == es
            else
              && RecordsOf(before + Survivors(f, life)) == RecordsOf(es) + life.inFlight.records
              && before + Survivors(f, life) == es + [life.inFlight]
              && (life.tear == |w| ==> WrittenAll(f, before + Survivors(f, life)) == WrittenAll(f, es) + w[..life.tear])
  {
    var es := before + life.committed;
    if life.tear + 1 < |Written(f, life.inFlight)| {
      assert before + Survivors(f, life) == es;
    } else {
      assert before + Survivors(f, life) == es + [life.inFlight];
      OneMore(f, es, life.inFlight);
    }
  }

  lemma OneMore<E>(f: Format<E>, es: seq<Envelope<E>>, e: Envelope<E>)
    ensures WrittenAll(f, es + [e]) == WrittenAll(f, es) + Written(f, e)[..|Written(f, e)|]
    ensures RecordsOf(es + [e]) == RecordsOf(es) + e.records
  {
    assert (es + [e])[..|es|] == es;
    assert Written(f, e)[..|Written(f, e)|] == Written(f, e);
  }

  /**
   A commit made after a restart is read back by the next restart if and only if the crash before
   that restart did not fall exactly between a frame body and its newline. When it did, the next
   commit is glued to the old body: the restart after it drops both frames, and with a second
   commit behind them the journal refuses to start.
   */
  lemma CommitAfterTear<E(!new)>(f: Format<E>, es: seq<Envelope<E>>, e: Envelope<E>, k: nat, g: Envelope<E>)
    requires IsSyntax(f.text) && AllOk(f, es) && EnvelopeOk(f, e) && EnvelopeOk(f, g) && k <= |Written(f, e)|
    ensures var first := Reload(f, WrittenAll(f, es) + Written(f, e)[..k]);
            && first.Some?
            && (Reload(f, first.value.0 + Written(f, g))
                 == Some((first.value.0 + Written(f, g), first.value.1 + g.records))
                <==> k + 1 != |Written(f, e)|)
  {
    CutCommit(f, es, e, k);
    if k + 1 == |Written(f, e)| {
      GluedCommit(f, es, e, g, []);
      var a := WrittenAll(f, es) + Written(f, e)[..k] + Written(f, g);
      assert a + WrittenAll(f, []) == a;
      assert |a| > |WrittenAll(f, es)|;
    } else if k + 1 < |Written(f, e)| {
      CommitRead(f, es, g);
    } else {
      OneMore(f, es, e);
      CommitRead(f, es + [e], g);
    }
  }

  lemma CommitRead<E(!new)>(f: Format<E>, es: seq<Envelope<E>>, g: Envelope<E>)
    requires IsSyntax(f.text) && AllOk(f, es) && EnvelopeOk(f, g)
    ensures Reload(f, WrittenAll(f, es) + Written(f, g))
         == Some((WrittenAll(f, es) + Written(f, g), RecordsOf(es) + g.records))
  {
    CutCommit(f, es, g, |Written(f, g)|);
    assert Written(f, g)[..|Written(f, g)|] == Written(f, g);
  }

  /** The glued line: it costs both frames when it is last, and the start-up when it is not. */
  lemma GluedCommit<E(!new)>(f: Format<E>, es: seq<Envelope<E>>, e: Envelope<E>, g: Envelope<E>, more: seq<Envelope<E>>)
    requires IsSyntax(f.text) && AllOk(f, es) && EnvelopeOk(f, e) && EnvelopeOk(f, g) && AllOk(f, more)
    ensures Reload(f, WrittenAll(f, es) + Written(f, e)[..|Written(f, e)| - 1] + Written(f, g) + WrittenAll(f, more))
         == if more == [] then Some((WrittenAll(f, es), RecordsOf(es))) else None
  {
    var a := WrittenAll(f, es);
    var line := Written(f, e)[..|Written(f, e)| - 1] + Written(f, g);
    var rest := line + WrittenAll(f, more);
    FourParts(a, Written(f, e)[..|Written(f, e)| - 1], Written(f, g), WrittenAll(f, more));
    ScanWritten(f, es);
    ScanFileAppend(f, a, rest, RecordsOf(es));
    GluedLine(f, e, g);
    SplitAppend(line, WrittenAll(f, more));
    var lines := SplitLines(WrittenAll(f, more));
    ConsTail(line, lines);
    if more == [] {
      TakeAll(RecordsOf(es));
      TakePrefix(a, rest);
    } else {
      SplitFirstInked(f, more);
    }
  }

  lemma GluedLine<E(!new)>(f: Format<E>, e: Envelope<E>, g: Envelope<E>)
    requires IsSyntax(f.text)
    ensures var line := Written(f, e)[..|Written(f, e)| - 1] + Written(f, g);
            SplitLines(line) == [line] && EndsLine(line) && !Blank(line) && f.text.decode(line) == None
  {
    var x, y := f.text.encode(Object(e)), f.text.encode(Object(g));
    var line := Written(f, e)[..|Written(f, e)| - 1] + Written(f, g);
    assert line == x + (y + [LF]);
    assert line == (x + y) + [LF];
    assert OneLine(x + y);
    SplitOneLine(x + y, true);
    var tail := y + [LF];
    assert !IsBlankByte(line[0]) && !IsBlankByte(tail[0]);
    assert !Blank(tail);
    assert f.text.decode(f.text.encode(Object(e)) + tail) == None;
  }

  lemma {:induction false} SplitFirstInked<E(!new)>(f: Format<E>, es: seq<Envelope<E>>)
    requires IsSyntax(f.text) && AllOk(f, es) && es != []
    ensures !AllBlank(SplitLines(WrittenAll(f, es)))
  {
    var front, last := es[..|es| - 1], es[|es| - 1];
    var w := Written(f, last);
    ScanWritten(f, front);
    SplitAppend(WrittenAll(f, front), w);
    assert OneLine(f.text.encode(Object(last)));
    SplitOneLine(f.text.encode(Object(last)), true);
    assert !Blank(w) by { assert !IsBlankByte(w[0]); }
    var lines := SplitLines(WrittenAll(f, es));
    assert lines[|lines| - 1] == w;
  }

  /** `append_frame` writes a frame start-up can read, except one with no events and an idempotency key. */
  lemma AppendedFrameReadable<E>(f: Format<E>, sequence: int, events: seq<E>, versions: map<string, int>,
                                 idem: Option<Idempotency<E>>, commitId: string)
    ensures EnvelopeOk(f, MakeEnvelope(f, sequence, events, versions, idem, commitId))
            <==> events != [] || idem.None?
  {
    var rs := MakeRecords(sequence, events, idem);
    assert events != [] ==> rs[0] == EventRecords(sequence, events)[0];
  }
}

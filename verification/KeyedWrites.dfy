/**
 Creation under an idempotency key: the check and the commit of `create_session`, `create_task` and
 shadow recording, over any sequence of requests, refusals and lost replies. The journal file,
 crashes and restarts are in KeyedRestart.
 */
module KeyedWrites {
  import opened Prelude
  import opened Journal

  datatype KeyedError = KeyConflict | NotFound | CommitRefused | NoSingleEvent

  /** What becomes of a commit: storage refuses it, stores it, or stores it and the answer never arrives. */
  datatype Fate = Refused | Stored | ReplyLost

  /** A request with the event its fresh entity would be recorded by; `allowed` is the check behind the key. */
  datatype Request<+E> = Request(key: Option<Key>, hash: string, event: E, allowed: bool, sequence: int, fate: Fate)

  type Answer<E> = Result<E, KeyedError>

  function Keyed<E>(r: Request<E>): Option<Idempotency<E>> {
    if r.key.None? then None else Some(Idempotency(r.key.value, r.hash, [r.event]))
  }

  function Looked<E>(records: seq<Record<E>>, r: Request<E>): Option<(string, seq<E>)> {
    if r.key.Some? && r.key.value in IndexOf(records) then Some(IndexOf(records)[r.key.value]) else None
  }

  /** Whether a request gets as far as a commit, and whether the commit is stored. */
  predicate Commits<E>(records: seq<Record<E>>, r: Request<E>) {
    Looked(records, r).None? && r.allowed
  }

  predicate Writes<E>(records: seq<Record<E>>, r: Request<E>) {
    Commits(records, r) && !r.fate.Refused?
  }

  /** The one frame of a request: its event and its key. */
  function KeyedFrame<E>(f: Format<E>, r: Request<E>, commitId: string): Envelope<E> {
    MakeEnvelope(f, r.sequence, [r.event], map[], Keyed(r), commitId)
  }

  /** The journal behind a request and the answer; a lost reply answers nothing. */
  function Serve<E>(records: seq<Record<E>>, r: Request<E>): (seq<Record<E>>, Option<Answer<E>>) {
    var found := Looked(records, r);
    if found.Some? then
      (records, Some(if found.value.0 != r.hash then Err(KeyConflict)
                     else if |found.value.1| == 1 then Ok(found.value.1[0]) else Err(NoSingleEvent)))
    else if !r.allowed then (records, Some(Err(NotFound)))
    else if r.fate.Refused? then (records, Some(Err(CommitRefused)))
    else
      (records + MakeRecords(r.sequence, [r.event], Keyed(r)), if r.fate.Stored? then Some(Ok(r.event)) else None)
  }

  class KeyedService<E> {
    const journal: LocalJournal<E>

    constructor (journal: LocalJournal<E>)
      ensures this.journal == journal
    {
      this.journal := journal;
    }

    /** Answers a repeated request from the index; otherwise records the event and the key in one frame. */
    method Create(key: Option<Key>, hash: string, event: E, allowed: bool, commitId: string, capacity: bool)
      returns (r: Answer<E>)
      requires journal.Valid()
      modifies journal`file, journal`sequence, journal`records, journal`idempotency
      ensures journal.Valid()
      ensures var fate := if capacity then Stored else Refused;
              var request := Request(key, hash, event, allowed, old(journal.sequence), fate);
              && Serve(old(journal.records), request) == (journal.records, Some(r))
              && journal.sequence == old(journal.sequence) + (if Commits(old(journal.records), request) then 1 else 0)
              && journal.file == if Writes(old(journal.records), request)
                                 then old(journal.file)
                                     + Written(journal.format, KeyedFrame(journal.format, request, commitId))
                                 else old(journal.file)
    {
      if key.Some? {
        var found := journal.IdempotentResult(key.value, hash);
        if found.Err? { return Err(KeyConflict); }
        if found.value.Some? {
          return if |found.value.value| == 1 then Ok(found.value.value[0]) else Err(NoSingleEvent);
        }
      }
      if !allowed { return Err(NotFound); }
      var idem := if key.Some? then Some(Idempotency(key.value, hash, [event])) else None;
      var stored := journal.AppendFrame([event], map[], idem, commitId, capacity);
      return if stored then Ok(event) else Err(CommitRefused);
    }
  }

  // ---------- Exactly once ----------

  /** The keys a journal has recorded, in order. */
  function KeysOf<E>(records: seq<Record<E>>): seq<Key> {
    if records == [] then []
    else
      var last := records[|records| - 1];
      KeysOf(records[..|records| - 1]) + if last.IdempotencyRecord? then [last.key] else []
  }

  /** No key is recorded twice, and every key is recorded right behind the one event it answers with. */
  ghost predicate OncePerKey<E>(records: seq<Record<E>>) {
    && (forall i, j :: 0 <= i < j < |KeysOf(records)| ==> KeysOf(records)[i] != KeysOf(records)[j])
    && (forall i :: 0 <= i < |records| && records[i].IdempotencyRecord? ==>
          i > 0 && records[i - 1].EventRecord? && records[i].response == [records[i - 1].event])
  }

  lemma {:induction false} IndexHoldsKeys<E>(records: seq<Record<E>>, k: Key)
    ensures k in IndexOf(records) <==> k in KeysOf(records)
    ensures k in IndexOf(records) ==>
              exists i :: 0 <= i < |records| && records[i].IdempotencyRecord? && records[i].key == k
                          && IndexOf(records)[k] == (records[i].requestHash, records[i].response)
  {
    if records != [] {
      var front := records[..|records| - 1];
      IndexHoldsKeys(front, k);
      if k in IndexOf(front) {
        var i :| 0 <= i < |front| && front[i].IdempotencyRecord? && front[i].key == k
                 && IndexOf(front)[k] == (front[i].requestHash, front[i].response);
        assert records[i] == front[i];
      }
    }
  }

  lemma SingleResponses<E>(records: seq<Record<E>>, k: Key)
    requires OncePerKey(records) && k in IndexOf(records)
    ensures |IndexOf(records)[k].1| == 1
  {
    IndexHoldsKeys(records, k);
    var i :| 0 <= i < |records| && records[i].IdempotencyRecord? && records[i].key == k
             && IndexOf(records)[k] == (records[i].requestHash, records[i].response);
    assert records[i].response == [records[i - 1].event];
  }

  lemma FrameKeys<E>(records: seq<Record<E>>, r: Request<E>)
    ensures KeysOf(records + MakeRecords(r.sequence, [r.event], Keyed(r)))
         == KeysOf(records) + if r.key.Some? then [r.key.value] else []
  {
    var made := MakeRecords(r.sequence, [r.event], Keyed(r));
    assert made[0].EventRecord?;
    assert (records + [made[0]])[..|records|] == records;
    if r.key.Some? {
      assert records + made == (records + [made[0]]) + [made[1]];
      assert ((records + [made[0]]) + [made[1]])[..|records| + 1] == records + [made[0]];
    } else {
      assert made == [made[0]];
    }
  }

  /** A request keeps the journal once per key, forgets no key and changes no answer. */
  lemma ServeKeepsOnce<E>(records: seq<Record<E>>, r: Request<E>)
    requires OncePerKey(records)
    ensures OncePerKey(Serve(records, r).0) && Remembers(records, Serve(records, r).0)
    ensures r.key.Some? && Serve(records, r).1.Some? && Serve(records, r).1.value.Ok? ==>
              Answers(Serve(records, r).0, r.key.value, r.hash, Serve(records, r).1.value.value)
  {
    var served := Serve(records, r).0;
    if r.key.Some? && r.key.value in IndexOf(records) {
      SingleResponses(records, r.key.value);
      var response := IndexOf(records)[r.key.value].1;
      assert response == [response[0]];
    }
    if served != records {
      var made := MakeRecords(r.sequence, [r.event], Keyed(r));
      FrameKeys(records, r);
      FrameIndexed(records, r.sequence, [r.event], Keyed(r));
      if r.key.Some? { IndexHoldsKeys(records, r.key.value); }
      assert made[0] == EventRecord(r.sequence + 1, r.event);
      forall i | 0 <= i < |served| && served[i].IdempotencyRecord?
        ensures i > 0 && served[i - 1].EventRecord? && served[i].response == [served[i - 1].event]
      {
        if i < |records| { assert served[i] == records[i]; }
      }
    }
  }

  ghost predicate Remembers<E>(before: seq<Record<E>>, after: seq<Record<E>>) {
    forall k :: k in IndexOf(before) ==> k in IndexOf(after) && IndexOf(after)[k] == IndexOf(before)[k]
  }

  ghost predicate Answers<E>(records: seq<Record<E>>, key: Key, hash: string, event: E) {
    key in IndexOf(records) && IndexOf(records)[key] == (hash, [event])
  }

  /** The journal after a sequence of requests. */
  function ServeAll<E>(records: seq<Record<E>>, requests: seq<Request<E>>): seq<Record<E>> {
    if requests == [] then records
    else Serve(ServeAll(records, requests[..|requests| - 1]), requests[|requests| - 1]).0
  }

  function AnswerTo<E>(records: seq<Record<E>>, requests: seq<Request<E>>, i: nat): Option<Answer<E>>
    requires i < |requests|
  {
    Serve(ServeAll(records, requests[..i]), requests[i]).1
  }

  lemma {:induction false} RunKeepsOncePerKey<E>(records: seq<Record<E>>, requests: seq<Request<E>>)
    requires OncePerKey(records)
    ensures OncePerKey(ServeAll(records, requests)) && Remembers(records, ServeAll(records, requests))
  {
    if requests != [] {
      RunKeepsOncePerKey(records, requests[..|requests| - 1]);
      ServeKeepsOnce(ServeAll(records, requests[..|requests| - 1]), requests[|requests| - 1]);
    }
  }

  lemma {:induction false} ServeSplit<E>(records: seq<Record<E>>, requests: seq<Request<E>>, i: nat)
    requires i <= |requests|
    ensures ServeAll(records, requests) == ServeAll(ServeAll(records, requests[..i]), requests[i..])
  {
    if i < |requests| {
      var front, last := requests[..|requests| - 1], requests[|requests| - 1];
      ServeSplit(records, front, i);
      assert front[..i] == requests[..i];
      assert requests[i..][..|requests[i..]| - 1] == front[i..];
    } else {
      assert requests[..i] == requests && requests[i..] == [];
    }
  }

  /**
     Exactly once: whatever lies between two requests under one key, if the first was answered with an
     entity then the second is answered with the same entity when its payload hash is the same, and
     with a conflict when it is not; and the journal holds one creating event for the key.
   */
  lemma ExactlyOnce<E>(records: seq<Record<E>>, requests: seq<Request<E>>, i: nat, j: nat)
    requires OncePerKey(records) && i < j < |requests|
    requires requests[i].key.Some? && requests[j].key == requests[i].key
    requires AnswerTo(records, requests, i).Some? && AnswerTo(records, requests, i).value.Ok?
    ensures AnswerTo(records, requests, j)
         == Some(if requests[j].hash == requests[i].hash then AnswerTo(records, requests, i).value
                 else Err(KeyConflict))
    ensures multiset(KeysOf(ServeAll(records, requests)))[requests[i].key.value] == 1
  {
    var k := requests[i].key.value;
    var event := AnswerTo(records, requests, i).value.value;
    AnsweredFor(records, requests, i, j);
    AnsweredFor(records, requests, i, |requests|);
    assert requests[..|requests|] == requests;
    RunKeepsOncePerKey(records, requests);
    IndexHoldsKeys(ServeAll(records, requests), k);
    DistinctCount(KeysOf(ServeAll(records, requests)), k);
  }

  /** Once answered, a key answers the same at every later point. */
  lemma AnsweredFor<E>(records: seq<Record<E>>, requests: seq<Request<E>>, i: nat, n: nat)
    requires OncePerKey(records) && i < n <= |requests| && requests[i].key.Some?
    requires AnswerTo(records, requests, i).Some? && AnswerTo(records, requests, i).value.Ok?
    ensures Answers(ServeAll(records, requests[..n]), requests[i].key.value, requests[i].hash,
              AnswerTo(records, requests, i).value.value)
  {
    var upto := requests[..n];
    assert upto[..i + 1] == requests[..i + 1];
    AnsweredAtOnce(records, requests, i);
    RunKeepsOncePerKey(records, upto[..i + 1]);
    ServeSplit(records, upto, i + 1);
    RunKeepsOncePerKey(ServeAll(records, upto[..i + 1]), upto[i + 1..]);
  }

  lemma AnsweredAtOnce<E>(records: seq<Record<E>>, requests: seq<Request<E>>, i: nat)
    requires OncePerKey(records) && i < |requests| && requests[i].key.Some?
    requires AnswerTo(records, requests, i).Some? && AnswerTo(records, requests, i).value.Ok?
    ensures Answers(ServeAll(records, requests[..i + 1]), requests[i].key.value, requests[i].hash,
              AnswerTo(records, requests, i).value.value)
  {
    TakeSnoc(requests, i);
    RunKeepsOncePerKey(records, requests[..i]);
    ServeKeepsOnce(ServeAll(records, requests[..i]), requests[i]);
  }

  lemma {:induction false} DistinctCount(s: seq<Key>, k: Key)
    requires (forall i, j :: 0 <= i < j < |s| ==> s[i] != s[j]) && k in s
    ensures multiset(s)[k] == 1
  {
    var front, last := s[..|s| - 1], s[|s| - 1];
    assert s == front + [last];
    if last == k {
      assert k !in front;
    } else {
      DistinctCount(front, k);
    }
  }

  /**
     A reply that was lost is not a request that was lost: repeating it finds the entity already
     recorded, and records nothing.
   */
  lemma RetryAfterLostReply<E>(records: seq<Record<E>>, r: Request<E>, retry: Request<E>)
    requires OncePerKey(records) && r.key.Some? && r.allowed && r.fate.ReplyLost? && r.key.value !in IndexOf(records)
    requires retry.key == r.key && retry.hash == r.hash
    ensures Serve(Serve(records, r).0, retry) == (Serve(records, r).0, Some(Ok(r.event)))
  {
    FrameIndexed(records, r.sequence, [r.event], Keyed(r));
  }
}

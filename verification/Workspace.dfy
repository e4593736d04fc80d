/**
 The local workspace adapter in copy mode: content revisions, change sets captured from a worker's
 copy, and their integration into the canonical tree.
 */
module Workspace {
  import opened Prelude
  import opened Parts
  import opened Regions
  import opened Domain
  import opened Paths

  type Tree = map<string, bytes>

  /** The digest, its printed form and the path encoding, all opaque. */
  datatype Hashing = Hashing(digest: bytes -> bytes, hex: bytes -> string, utf8: string -> bytes)

  const NUL: byte := 0

  function Hash(h: Hashing, data: bytes): string {
    h.hex(h.digest(data))
  }

  function HashOf(h: Hashing, data: Option<bytes>): Option<string> {
    if data.None? then None else Some(Hash(h, data.value))
  }

  /** What a tree holds at a path. */
  function At(t: Tree, p: string): Option<bytes> {
    if p in t then Some(t[p]) else None
  }

  // ---------- Revisions ----------

  function Entry(h: Hashing, p: string, content: bytes): bytes {
    h.utf8(p) + [NUL] + (h.digest(content) + [NUL])
  }

  /** The bytes a revision digests. */
  function Stream(h: Hashing, paths: seq<string>, t: Tree): bytes
    requires forall p :: p in paths ==> p in t
  {
    if paths == [] then [] else Entry(h, paths[0], t[paths[0]]) + Stream(h, paths[1..], t)
  }

  function Revision(h: Hashing, t: Tree): string {
    Hash(h, Stream(h, Sorted(t.Keys), t))
  }

  method Fingerprint(h: Hashing, t: Tree) returns (r: string)
    ensures r == Revision(h, t)
  {
    var paths := Sorted(t.Keys);
    var fed := Feed(h, paths, t);
    return Hash(h, fed);
  }

  method Feed(h: Hashing, paths: seq<string>, t: Tree) returns (fed: bytes)
    requires forall p :: p in paths ==> p in t
    ensures fed == Stream(h, paths, t)
  {
    fed := [];
    for i := 0 to |paths|
      invariant fed + Stream(h, paths[i..], t) == Stream(h, paths, t)
    {
      var p := paths[i];
      assert paths[i..][0] == p && paths[i..][1..] == paths[i + 1..];
      Regroup(fed, Entry(h, p, t[p]), Stream(h, paths[i + 1..], t));
      fed := fed + Entry(h, p, t[p]);
    }
    assert fed + Stream(h, paths[|paths|..], t) == fed;
  }

  lemma Regroup(a: bytes, b: bytes, c: bytes)
    ensures a + (b + c) == (a + b) + c
  {}

  /** Equal printed hashes mean equal contents. */
  ghost predicate ContentsApart(h: Hashing, t: Tree, u: Tree) {
    forall p, q :: p in t && q in u && Hash(h, t[p]) == Hash(h, u[q]) ==> t[p] == u[q]
  }

  /** Equal stream entries mean equal paths and contents: no digest collision, no NUL in a path. */
  ghost predicate EntriesApart(h: Hashing, t: Tree, u: Tree) {
    && (forall p, q :: p in t && q in u ==> |h.digest(t[p])| == |h.digest(u[q])|)
    && (forall p, q :: p in t && q in u && h.digest(t[p]) == h.digest(u[q]) ==> t[p] == u[q])
    && (forall p, q :: p in t && q in u && h.utf8(p) == h.utf8(q) ==> p == q)
    && (forall p :: p in t || p in u ==> NUL !in h.utf8(p))
  }

  /** The hash tells two trees apart. */
  ghost predicate Distinguishes(h: Hashing, t: Tree, u: Tree) {
    && ContentsApart(h, t, u) && EntriesApart(h, t, u)
    && (Revision(h, t) == Revision(h, u) ==> Stream(h, Sorted(t.Keys), t) == Stream(h, Sorted(u.Keys), u))
  }

  lemma HeadUpToNul(a: bytes, b: bytes, x: bytes, y: bytes)
    requires NUL !in a && NUL !in b && a + [NUL] + x == b + [NUL] + y
    ensures a == b && x == y
  {
    var s, t := a + [NUL] + x, b + [NUL] + y;
    assert s[|a|] == NUL && t[|b|] == NUL;
    assert forall i :: 0 <= i < |a| ==> s[i] == a[i];
    assert forall i :: 0 <= i < |b| ==> t[i] == b[i];
    assert a == s[..|a|] && b == t[..|b|] && x == s[|a| + 1..] && y == t[|b| + 1..];
  }

  lemma EntryInjective(a: bytes, d: bytes, x: bytes, b: bytes, e: bytes, y: bytes)
    requires NUL !in a && NUL !in b && |d| == |e|
    requires a + [NUL] + (d + [NUL]) + x == b + [NUL] + (e + [NUL]) + y
    ensures a == b && d == e && x == y
  {
    assert a + [NUL] + (d + [NUL]) + x == a + [NUL] + (d + [NUL] + x);
    assert b + [NUL] + (e + [NUL]) + y == b + [NUL] + (e + [NUL] + y);
    HeadUpToNul(a, b, d + [NUL] + x, e + [NUL] + y);
    var s, t := d + [NUL] + x, e + [NUL] + y;
    assert d == s[..|d|] && e == t[..|e|] && x == s[|d| + 1..] && y == t[|e| + 1..];
  }

  lemma StreamEmpty(h: Hashing, ps: seq<string>, t: Tree)
    requires forall p :: p in ps ==> p in t
    ensures Stream(h, ps, t) == [] <==> ps == []
  {}

  /** Equal streams list equal paths with equal contents. */
  lemma {:induction false} StreamInjective(h: Hashing, ps: seq<string>, t: Tree, qs: seq<string>, u: Tree)
    requires (forall p :: p in ps ==> p in t) && (forall q :: q in qs ==> q in u)
    requires EntriesApart(h, t, u) && Stream(h, ps, t) == Stream(h, qs, u)
    ensures ps == qs && forall p :: p in ps ==> t[p] == u[p]
  {
    StreamEmpty(h, ps, t);
    StreamEmpty(h, qs, u);
    if ps != [] {
      var p, q := ps[0], qs[0];
      assert p in t && q in u;
      EntryInjective(h.utf8(p), h.digest(t[p]), Stream(h, ps[1..], t), h.utf8(q), h.digest(u[q]),
          Stream(h, qs[1..], u));
      StreamInjective(h, ps[1..], t, qs[1..], u);
      assert ps == [p] + ps[1..] && qs == [q] + qs[1..];
    }
  }

  /** A revision names a tree. */
  lemma RevisionExact(h: Hashing, t: Tree, u: Tree)
    requires Distinguishes(h, t, u)
    ensures Revision(h, t) == Revision(h, u) <==> t == u
  {
    if Revision(h, t) == Revision(h, u) {
      StreamInjective(h, Sorted(t.Keys), t, Sorted(u.Keys), u);
      forall p ensures p in t <==> p in u {
        assert p in t.Keys <==> p in Sorted(t.Keys);
        assert p in u.Keys <==> p in Sorted(u.Keys);
      }
      assert t.Keys == u.Keys;
    }
  }

  // ---------- Change sets ----------

  datatype FileChange = FileChange(path: string, beforeHash: Option<string>, afterHash: Option<string>,
                                   after: Option<bytes>)

  datatype ChangeSet = ChangeSet(ownerId: string, baseRevision: string, files: seq<FileChange>)

  predicate Changed(base: Tree, work: Tree, p: string) {
    At(base, p) != At(work, p)
  }

  function Changes(h: Hashing, paths: seq<string>, base: Tree, work: Tree): seq<FileChange> {
    if paths == [] then []
    else
      var p := paths[0];
      (if Changed(base, work, p)
       then [FileChange(p, HashOf(h, At(base, p)), HashOf(h, At(work, p)), At(work, p))]
       else [])
      + Changes(h, paths[1..], base, work)
  }

  function CreateChangeSet(h: Hashing, owner: string, base: Tree, work: Tree): ChangeSet {
    ChangeSet(owner, Revision(h, base), Changes(h, Sorted(base.Keys + work.Keys), base, work))
  }

  predicate Touches(cs: ChangeSet, p: string) {
    exists i :: 0 <= i < |cs.files| && cs.files[i].path == p
  }

  ghost predicate Captures(h: Hashing, files: seq<FileChange>, base: Tree, work: Tree) {
    forall i :: 0 <= i < |files| ==>
      Changed(base, work, files[i].path)
      && files[i].beforeHash == HashOf(h, At(base, files[i].path))
      && files[i].afterHash == HashOf(h, At(work, files[i].path)) && files[i].after == At(work, files[i].path)
  }

  lemma {:induction false} ChangesCapture(h: Hashing, paths: seq<string>, base: Tree, work: Tree)
    ensures Captures(h, Changes(h, paths, base, work), base, work)
    ensures forall p :: p in paths && Changed(base, work, p) ==>
              exists i :: 0 <= i < |Changes(h, paths, base, work)| && Changes(h, paths, base, work)[i].path == p
  {
    if paths != [] {
      var rest := Changes(h, paths[1..], base, work);
      var all := Changes(h, paths, base, work);
      ChangesCapture(h, paths[1..], base, work);
      forall p | p in paths && Changed(base, work, p) ensures exists i :: 0 <= i < |all| && all[i].path == p {
        if p == paths[0] {
          assert all[0].path == p;
        } else {
          var i :| 0 <= i < |rest| && rest[i].path == p;
          assert all[|all| - |rest| + i] == rest[i];
        }
      }
    }
  }

  /** A change set touches exactly the paths at which the worker's copy differs from its base. */
  lemma ChangeSetExact(h: Hashing, owner: string, base: Tree, work: Tree, p: string)
    ensures Touches(CreateChangeSet(h, owner, base, work), p) <==> Changed(base, work, p)
    ensures Captures(h, CreateChangeSet(h, owner, base, work).files, base, work)
  {
    ChangesCapture(h, Sorted(base.Keys + work.Keys), base, work);
    if Changed(base, work, p) { assert p in base.Keys + work.Keys; }
  }

  ghost predicate InOrder(files: seq<FileChange>) {
    forall i, j :: 0 <= i < j < |files| ==> Before(files[i].path, files[j].path)
  }

  lemma {:induction false} ChangesInOrder(h: Hashing, paths: seq<string>, base: Tree, work: Tree)
    requires Ascending(paths)
    ensures InOrder(Changes(h, paths, base, work))
    ensures forall i :: 0 <= i < |Changes(h, paths, base, work)| ==> Changes(h, paths, base, work)[i].path in paths
  {
    if paths != [] {
      ChangesInOrder(h, paths[1..], base, work);
      var rest := Changes(h, paths[1..], base, work);
      forall i | 0 <= i < |rest| ensures Before(paths[0], rest[i].path) {
        var j :| 0 <= j < |paths[1..]| && paths[1..][j] == rest[i].path;
        assert paths[j + 1] == rest[i].path;
      }
    }
  }

  /** A change set names its author and base, and lists each path once, in order. */
  lemma ChangeSetHeader(h: Hashing, owner: string, base: Tree, work: Tree)
    ensures var cs := CreateChangeSet(h, owner, base, work);
            cs.ownerId == owner && cs.baseRevision == Revision(h, base) && InOrder(cs.files)
  {
    ChangesInOrder(h, Sorted(base.Keys + work.Keys), base, work);
  }

  // ---------- Validation ----------

  datatype Refusal = PathRefused | WriteScopeViolation | Conflict

  /** Whether a region lets its owner write a path; refuses lease paths that have no normal form. */
  function Allows(path: string, region: Region, baseRevision: string): Result<bool, Refusal> {
    if region.baseRevision != baseRevision then Ok(false)
    else if region.kind == File then
      match NormalPath(region.resourceId)
      case None => Err(PathRefused)
      case Some(p) => Ok(p == path && region.selectorType == WholeResource)
    else if region.kind == Directory && region.selectorType == PathPrefix then
      match NormalPath(Show(region.value))
      case None => Err(PathRefused)
      case Some(p) => Ok(Under(StripSlashes(p), path))
    else Ok(false)
  }

  /** The lease path as its parts. */
  ghost predicate Spelling(value: string, parts: seq<string>) {
    parts != [] && PlainParts(parts) && NormalPath(value) == Some(JoinParts(parts))
  }

  /**
     A file lease allows the file its path names; a directory lease every path whose first parts are
     those of its prefix; nothing else allows anything.
   */
  lemma AllowsIff(path: string, r: Region, baseRevision: string)
    ensures Allows(path, r, baseRevision) == Ok(true) <==>
              && r.baseRevision == baseRevision
              && ((r.kind == File && r.selectorType == WholeResource && NormalPath(r.resourceId) == Some(path))
                  || (r.kind == Directory && r.selectorType == PathPrefix
                      && exists parts :: Spelling(Show(r.value), parts) && parts <= Split(path)))
    ensures Allows(path, r, baseRevision) == Err(PathRefused) <==>
              && r.baseRevision == baseRevision
              && ((r.kind == File && NormalPath(r.resourceId).None?)
                  || (r.kind == Directory && r.selectorType == PathPrefix && NormalPath(Show(r.value)).None?))
    ensures Allows(path, r, baseRevision).Err? ==> Allows(path, r, baseRevision) == Err(PathRefused)
  {
    SpelledUnder(Show(r.value), path);
  }

  lemma SpelledUnder(value: string, path: string)
    ensures (exists parts :: Spelling(value, parts) && parts <= Split(path)) <==>
              NormalPath(value).Some? && Under(StripSlashes(NormalPath(value).value), path)
  {
    if NormalPath(value).Some? {
      var p := NormalPath(value).value;
      NormalParts(value);
      NormalIdempotent(value);
      UnderParts(p, path);
      assert Spelling(value, Kept(Split(Slashed(value))));
      SplitJoin(Kept(Split(Slashed(value))));
      forall parts | Spelling(value, parts) ensures parts == Split(p) { SplitJoin(parts); }
    }
  }

  function AnyAllows(path: string, owner: string, baseRevision: string, leases: seq<WriterLease>)
    : Result<bool, Refusal>
  {
    if leases == [] then Ok(false)
    else
      var l := leases[0];
      var mine := l.status.Active? && l.ownerAgentId == owner;
      var here := if mine then Allows(path, l.region, baseRevision) else Ok(false);
      if here == Ok(false) then AnyAllows(path, owner, baseRevision, leases[1..]) else here
  }

  function Validate(cs: ChangeSet, files: seq<FileChange>, leases: seq<WriterLease>): Option<Refusal> {
    if files == [] then None
    else
      match AnyAllows(files[0].path, cs.ownerId, cs.baseRevision, leases)
      case Err(e) => Some(e)
      case Ok(allowed) => if allowed then Validate(cs, files[1..], leases) else Some(WriteScopeViolation)
  }

  lemma {:induction false} AllowedBySome(path: string, owner: string, baseRevision: string, leases: seq<WriterLease>)
    requires AnyAllows(path, owner, baseRevision, leases) == Ok(true)
    ensures exists i :: 0 <= i < |leases| && leases[i].status.Active? && leases[i].ownerAgentId == owner
                        && Allows(path, leases[i].region, baseRevision) == Ok(true)
  {
    var l := leases[0];
    if l.status.Active? && l.ownerAgentId == owner && Allows(path, l.region, baseRevision) == Ok(true) {
    } else {
      AllowedBySome(path, owner, baseRevision, leases[1..]);
      var i :| 0 <= i < |leases[1..]| && leases[1..][i].status.Active? && leases[1..][i].ownerAgentId == owner
               && Allows(path, leases[1..][i].region, baseRevision) == Ok(true);
      assert leases[i + 1] == leases[1..][i];
    }
  }

  /** The first of the owner's active leases with something to say answers, be it leave or refusal. */
  lemma {:induction false} FirstAnswers(path: string, owner: string, baseRevision: string, leases: seq<WriterLease>)
    ensures var r := AnyAllows(path, owner, baseRevision, leases);
            && (r == Ok(false) <==> Silent(path, owner, baseRevision, leases, |leases|))
            && (r != Ok(false) <==> exists i :: 0 <= i < |leases| && Answers(path, owner, baseRevision, leases, i))
            && forall i :: 0 <= i < |leases| && Answers(path, owner, baseRevision, leases, i) ==>
                 r == Allows(path, leases[i].region, baseRevision)
  {
    if leases != [] {
      FirstAnswers(path, owner, baseRevision, leases[1..]);
      var l, rest := leases[0], leases[1..];
      assert forall i :: 0 <= i < |rest| ==> rest[i] == leases[i + 1];
      if Speaks(path, owner, baseRevision, l) {
        assert Answers(path, owner, baseRevision, leases, 0);
        forall i | 0 <= i < |leases| && Answers(path, owner, baseRevision, leases, i) ensures i == 0 {}
      } else {
        forall i | 0 <= i < |rest|
          ensures Answers(path, owner, baseRevision, rest, i) <==> Answers(path, owner, baseRevision, leases, i + 1)
        {
          assert Silent(path, owner, baseRevision, rest, i) <==> Silent(path, owner, baseRevision, leases, i + 1) by {
            SilentTail(path, owner, baseRevision, leases, i);
          }
        }
        SilentTail(path, owner, baseRevision, leases, |rest|);
        forall i | 0 <= i < |leases| && Answers(path, owner, baseRevision, leases, i)
          ensures i > 0 && Answers(path, owner, baseRevision, rest, i - 1)
        {}
      }
    }
  }

  predicate Speaks(path: string, owner: string, baseRevision: string, l: WriterLease) {
    l.status.Active? && l.ownerAgentId == owner && Allows(path, l.region, baseRevision) != Ok(false)
  }

  predicate Silent(path: string, owner: string, baseRevision: string, leases: seq<WriterLease>, n: nat)
    requires n <= |leases|
  {
    forall i :: 0 <= i < n ==> !Speaks(path, owner, baseRevision, leases[i])
  }

  predicate Answers(path: string, owner: string, baseRevision: string, leases: seq<WriterLease>, i: nat)
    requires i < |leases|
  {
    Silent(path, owner, baseRevision, leases, i) && Speaks(path, owner, baseRevision, leases[i])
  }

  lemma SilentTail(path: string, owner: string, baseRevision: string, leases: seq<WriterLease>, n: nat)
    requires leases != [] && n <= |leases[1..]| && !Speaks(path, owner, baseRevision, leases[0])
    ensures Silent(path, owner, baseRevision, leases[1..], n) <==> Silent(path, owner, baseRevision, leases, n + 1)
  {
    assert forall i :: 0 <= i < |leases[1..]| ==> leases[1..][i] == leases[i + 1];
    if Silent(path, owner, baseRevision, leases, n + 1) {
      forall i | 0 <= i < n ensures !Speaks(path, owner, baseRevision, leases[1..][i]) {
        assert !Speaks(path, owner, baseRevision, leases[i + 1]);
      }
    }
  }

  /** Every path of a validated change set lies in an active lease of its author at its base revision. */
  lemma {:induction false} ValidatedPaths(cs: ChangeSet, files: seq<FileChange>, leases: seq<WriterLease>, k: nat)
    requires Validate(cs, files, leases) == None && k < |files|
    ensures exists i :: 0 <= i < |leases| && leases[i].status.Active? && leases[i].ownerAgentId == cs.ownerId
                        && Allows(files[k].path, leases[i].region, cs.baseRevision) == Ok(true)
  {
    if k == 0 {
      AllowedBySome(files[0].path, cs.ownerId, cs.baseRevision, leases);
    } else {
      ValidatedPaths(cs, files[1..], leases, k - 1);
    }
  }

  /** No lease path is refused. */
  ghost predicate Readable(leases: seq<WriterLease>, baseRevision: string) {
    forall i, path :: 0 <= i < |leases| ==> Allows(path, leases[i].region, baseRevision).Ok?
  }

  lemma {:induction false} SomeAllows(path: string, owner: string, baseRevision: string, leases: seq<WriterLease>)
    requires Readable(leases, baseRevision)
    ensures AnyAllows(path, owner, baseRevision, leases).Ok?
    ensures AnyAllows(path, owner, baseRevision, leases).value <==>
              exists i :: 0 <= i < |leases| && leases[i].status.Active? && leases[i].ownerAgentId == owner
                          && Allows(path, leases[i].region, baseRevision) == Ok(true)
  {
    if leases != [] {
      SomeAllows(path, owner, baseRevision, leases[1..]);
      assert forall i :: 0 < i < |leases| ==> leases[i] == leases[1..][i - 1];
    }
  }

  /**
     With readable lease paths, a change set is valid if and only if every path lies in an active lease
     of its author.
   */
  lemma {:induction false} ValidateIff(cs: ChangeSet, files: seq<FileChange>, leases: seq<WriterLease>)
    requires Readable(leases, cs.baseRevision)
    ensures Validate(cs, files, leases) == None <==>
              forall k :: 0 <= k < |files| ==> AnyAllows(files[k].path, cs.ownerId, cs.baseRevision, leases) == Ok(true)
    ensures Validate(cs, files, leases) == None || Validate(cs, files, leases) == Some(WriteScopeViolation)
  {
    if files != [] {
      SomeAllows(files[0].path, cs.ownerId, cs.baseRevision, leases);
      ValidateIff(cs, files[1..], leases);
      assert forall k :: 0 < k < |files| ==> files[k] == files[1..][k - 1];
    }
  }

  // ---------- Integration ----------

  predicate Untouched(h: Hashing, t: Tree, files: seq<FileChange>) {
    forall i :: 0 <= i < |files| ==> HashOf(h, At(t, files[i].path)) == files[i].beforeHash
  }

  function Applied(t: Tree, files: seq<FileChange>): Tree {
    if files == [] then t
    else
      var f, before := files[|files| - 1], Applied(t, files[..|files| - 1]);
      if f.after.None? then before - {f.path} else before[f.path := f.after.value]
  }

  function Merged(h: Hashing, t: Tree, cs: ChangeSet, leases: seq<WriterLease>): Result<Tree, Refusal> {
    var refused := Validate(cs, cs.files, leases);
    if refused.Some? then Err(refused.value)
    else if Revision(h, t) != cs.baseRevision && !Untouched(h, t, cs.files) then Err(Conflict)
    else Ok(Applied(t, cs.files))
  }

  class CanonicalTree {
    var files: Tree

    /** How often `Integrate` has been called on this directory, by this object and its predecessors. */
    ghost var runs: nat

    constructor (files: Tree, ghost runs: nat)
      ensures this.files == files && this.runs == runs
    {
      this.files := files;
      this.runs := runs;
    }

    /** Validate, preflight, stage, and replace the tree only on success. */
    method Integrate(h: Hashing, cs: ChangeSet, leases: seq<WriterLease>) returns (r: Result<string, Refusal>)
      modifies this
      ensures match Merged(h, old(files), cs, leases)
              case Ok(t) => files == t && r == Ok(Revision(h, t))
              case Err(e) => files == old(files) && r == Err(e)
      ensures runs == old(runs) + 1
    {
      runs := runs + 1;
      var refused := Validate(cs, cs.files, leases);
      if refused.Some? { return Err(refused.value); }
      var revision := Fingerprint(h, files);
      if revision != cs.baseRevision {
        var untouched := Preflight(h, files, cs.files);
        if !untouched { return Err(Conflict); }
      }
      files := Stage(files, cs.files);
      var after := Fingerprint(h, files);
      return Ok(after);
    }
  }

  method Preflight(h: Hashing, t: Tree, files: seq<FileChange>) returns (ok: bool)
    ensures ok <==> Untouched(h, t, files)
  {
    for i := 0 to |files|
      invariant Untouched(h, t, files[..i])
    {
      if HashOf(h, At(t, files[i].path)) != files[i].beforeHash { return false; }
    }
    return true;
  }

  method Stage(t: Tree, files: seq<FileChange>) returns (staging: Tree)
    ensures staging == Applied(t, files)
  {
    staging := t;
    for i := 0 to |files|
      invariant staging == Applied(t, files[..i])
    {
      assert files[..i + 1][..i] == files[..i];
      var change := files[i];
      staging := if change.after.None? then staging - {change.path} else staging[change.path := change.after.value];
    }
    assert files[..|files|] == files;
  }

  // ---------- Three-way merge ----------

  lemma {:induction false} AppliedAt(t: Tree, files: seq<FileChange>, work: Tree, p: string)
    requires forall i :: 0 <= i < |files| ==> files[i].after == At(work, files[i].path)
    ensures At(Applied(t, files), p) ==
              if exists i :: 0 <= i < |files| && files[i].path == p then At(work, p) else At(t, p)
  {
    if files != [] {
      var front := files[..|files| - 1];
      AppliedAt(t, front, work, p);
      if i :| 0 <= i < |front| && front[i].path == p { assert files[i].path == p; }
    }
  }

  /** What a three-way merge of base, worker's copy and current tree holds at a path. */
  function MergedAt(base: Tree, work: Tree, current: Tree, p: string): Option<bytes> {
    if Changed(base, work, p) then At(work, p) else At(current, p)
  }

  /** A successful integration is the three-way merge. */
  lemma IntegrationMerges(h: Hashing, owner: string, base: Tree, work: Tree, current: Tree, leases: seq<WriterLease>,
                          p: string)
    requires Merged(h, current, CreateChangeSet(h, owner, base, work), leases).Ok?
    ensures At(Merged(h, current, CreateChangeSet(h, owner, base, work), leases).value, p)
              == MergedAt(base, work, current, p)
  {
    var cs := CreateChangeSet(h, owner, base, work);
    ChangeSetExact(h, owner, base, work, p);
    AppliedAt(current, cs.files, work, p);
    assert Touches(cs, p) <==> exists i :: 0 <= i < |cs.files| && cs.files[i].path == p;
  }

  lemma HashDecides(h: Hashing, base: Tree, current: Tree, p: string)
    requires ContentsApart(h, base, current)
    ensures HashOf(h, At(current, p)) == HashOf(h, At(base, p)) <==> !Changed(base, current, p)
  {}

  lemma UntouchedIff(h: Hashing, files: seq<FileChange>, base: Tree, work: Tree, current: Tree)
    requires ContentsApart(h, base, current) && Captures(h, files, base, work)
    ensures Untouched(h, current, files) <==> forall i :: 0 <= i < |files| ==> !Changed(base, current, files[i].path)
  {
    forall i | 0 <= i < |files|
      ensures HashOf(h, At(current, files[i].path)) == files[i].beforeHash <==> !Changed(base, current, files[i].path)
    {
      HashDecides(h, base, current, files[i].path);
    }
  }

  /** A validated change set conflicts exactly when the current tree has moved at a path it changes. */
  lemma ConflictIff(h: Hashing, owner: string, base: Tree, work: Tree, current: Tree, leases: seq<WriterLease>)
    requires Distinguishes(h, base, current)
    requires var cs := CreateChangeSet(h, owner, base, work); Validate(cs, cs.files, leases) == None
    ensures var r := Merged(h, current, CreateChangeSet(h, owner, base, work), leases);
            && (r.Ok? || r == Err(Conflict))
            && (r == Err(Conflict) <==> exists p :: Changed(base, work, p) && Changed(base, current, p))
  {
    var cs := CreateChangeSet(h, owner, base, work);
    ChangeSetExact(h, owner, base, work, "");
    UntouchedIff(h, cs.files, base, work, current);
    RevisionExact(h, base, current);
    if p :| Changed(base, work, p) && Changed(base, current, p) {
      ChangeSetExact(h, owner, base, work, p);
      var i :| 0 <= i < |cs.files| && cs.files[i].path == p;
    } else {
      assert forall i :: 0 <= i < |cs.files| ==> Changed(base, work, cs.files[i].path);
    }
  }

  // ---------- Many change sets of one base ----------

  datatype Work = Work(owner: string, tree: Tree)

  function IntegrateAll(h: Hashing, base: Tree, works: seq<Work>, leases: seq<WriterLease>): Result<Tree, Refusal> {
    if works == [] then Ok(base)
    else
      match IntegrateAll(h, base, works[..|works| - 1], leases)
      case Err(e) => Err(e)
      case Ok(t) =>
        var w := works[|works| - 1];
        Merged(h, t, CreateChangeSet(h, w.owner, base, w.tree), leases)
  }

  ghost predicate PathDisjoint(base: Tree, works: seq<Work>) {
    forall i, j, p :: 0 <= i < j < |works| && Changed(base, works[i].tree, p) ==> !Changed(base, works[j].tree, p)
  }

  ghost predicate AllValid(h: Hashing, base: Tree, works: seq<Work>, leases: seq<WriterLease>) {
    forall i :: 0 <= i < |works| ==>
      var cs := CreateChangeSet(h, works[i].owner, base, works[i].tree); Validate(cs, cs.files, leases) == None
  }

  /** What every order of path-disjoint integrations leaves at a path. */
  ghost function JointAt(base: Tree, works: seq<Work>, p: string): Option<bytes> {
    if exists w :: w in works && Changed(base, w.tree, p)
    then var w :| w in works && Changed(base, w.tree, p); At(w.tree, p)
    else At(base, p)
  }

  lemma JointAtSnoc(base: Tree, works: seq<Work>, p: string)
    requires works != [] && PathDisjoint(base, works)
    ensures JointAt(base, works, p)
         == if Changed(base, works[|works| - 1].tree, p) then At(works[|works| - 1].tree, p)
            else JointAt(base, works[..|works| - 1], p)
  {
    var last, front := works[|works| - 1], works[..|works| - 1];
    forall w, v | w in works && v in works && Changed(base, w.tree, p) && Changed(base, v.tree, p) ensures w == v {
      var i :| 0 <= i < |works| && works[i] == w;
      var j :| 0 <= j < |works| && works[j] == v;
    }
    assert last in works;
    assert forall w :: w in front ==> w in works;
    assert forall w :: w in works ==> w in front || w == last;
  }

  /** Path-disjoint change sets of one base all integrate, and the tree holds every worker's changes. */
  lemma {:induction false} DisjointAllIntegrate(h: Hashing, base: Tree, works: seq<Work>, leases: seq<WriterLease>)
    requires PathDisjoint(base, works) && AllValid(h, base, works, leases)
    ensures IntegrateAll(h, base, works, leases).Ok?
    ensures forall p :: At(IntegrateAll(h, base, works, leases).value, p) == JointAt(base, works, p)
  {
    if works != [] {
      var front, w := works[..|works| - 1], works[|works| - 1];
      DisjointAllIntegrate(h, base, front, leases);
      var t := IntegrateAll(h, base, front, leases).value;
      var cs := CreateChangeSet(h, w.owner, base, w.tree);
      ChangesCapture(h, Sorted(base.Keys + w.tree.Keys), base, w.tree);
      forall i | 0 <= i < |cs.files| ensures HashOf(h, At(t, cs.files[i].path)) == cs.files[i].beforeHash {
        JointUnchanged(base, works, cs.files[i].path);
      }
      assert Merged(h, t, cs, leases).Ok?;
      forall p ensures At(Merged(h, t, cs, leases).value, p) == JointAt(base, works, p) {
        IntegrationMerges(h, w.owner, base, w.tree, t, leases, p);
        JointAtSnoc(base, works, p);
      }
    }
  }

  lemma JointUnchanged(base: Tree, works: seq<Work>, p: string)
    requires works != [] && PathDisjoint(base, works) && Changed(base, works[|works| - 1].tree, p)
    ensures JointAt(base, works[..|works| - 1], p) == At(base, p)
  {
    var front := works[..|works| - 1];
    forall w | w in front ensures !Changed(base, w.tree, p) {
      var i :| 0 <= i < |front| && front[i] == w;
      assert works[i] == w;
    }
  }

  lemma SameTree(t: Tree, u: Tree)
    requires forall p :: At(t, p) == At(u, p)
    ensures t == u
  {
    forall p ensures p in t <==> p in u { assert At(t, p) == At(u, p); }
    forall p | p in t ensures t[p] == u[p] { assert At(t, p) == At(u, p); }
    assert t.Keys == u.Keys;
  }

  lemma {:induction false} TwoPlaces(works: seq<Work>, w: Work) returns (i: nat, j: nat)
    requires multiset(works)[w] >= 2
    ensures i < j < |works| && works[i] == w && works[j] == w
  {
    var front := works[..|works| - 1];
    assert works == front + [works[|works| - 1]];
    if multiset(front)[w] >= 2 {
      i, j := TwoPlaces(front, w);
    } else {
      assert w in multiset(front);
      i :| 0 <= i < |front| && front[i] == w;
      j := |works| - 1;
    }
  }

  lemma {:induction false} Count(works: seq<Work>, i: nat, j: nat)
    requires i < j < |works| && works[i] == works[j]
    ensures multiset(works)[works[i]] >= 2
  {
    assert works == works[..j] + works[j..];
    assert works[..j][i] in multiset(works[..j]) && works[j..][0] in multiset(works[j..]);
  }

  lemma DisjointInAnyOrder(base: Tree, works: seq<Work>, other: seq<Work>)
    requires PathDisjoint(base, works) && multiset(works) == multiset(other)
    ensures PathDisjoint(base, other)
  {
    forall i, j, p | 0 <= i < j < |other| && Changed(base, other[i].tree, p) ensures !Changed(base, other[j].tree, p) {
      if other[i] == other[j] {
        Count(other, i, j);
        var k, l := TwoPlaces(works, other[i]);
      } else {
        assert other[i] in multiset(works) && other[j] in multiset(works);
        var k :| 0 <= k < |works| && works[k] == other[i];
        var l :| 0 <= l < |works| && works[l] == other[j];
      }
    }
  }

  /** Path-disjoint change sets commute: every order succeeds and leaves the same tree. */
  lemma IntegrationCommutes(h: Hashing, base: Tree, works: seq<Work>, other: seq<Work>, leases: seq<WriterLease>)
    requires PathDisjoint(base, works) && AllValid(h, base, works, leases) && multiset(works) == multiset(other)
    ensures IntegrateAll(h, base, works, leases).Ok?
    ensures IntegrateAll(h, base, other, leases) == IntegrateAll(h, base, works, leases)
  {
    DisjointInAnyOrder(base, works, other);
    forall i | 0 <= i < |other|
      ensures var cs := CreateChangeSet(h, other[i].owner, base, other[i].tree); Validate(cs, cs.files, leases) == None
    {
      assert other[i] in multiset(works);
      var k :| 0 <= k < |works| && works[k] == other[i];
    }
    DisjointAllIntegrate(h, base, works, leases);
    DisjointAllIntegrate(h, base, other, leases);
    forall p ensures JointAt(base, works, p) == JointAt(base, other, p) {
      SameJoint(base, works, other, p);
    }
    SameTree(IntegrateAll(h, base, works, leases).value, IntegrateAll(h, base, other, leases).value);
  }

  lemma SameJoint(base: Tree, works: seq<Work>, other: seq<Work>, p: string)
    requires PathDisjoint(base, works) && multiset(works) == multiset(other)
    ensures JointAt(base, works, p) == JointAt(base, other, p)
  {
    forall w ensures w in works <==> w in other {
      assert w in works <==> w in multiset(works);
      assert w in other <==> w in multiset(other);
    }
    forall w, v | w in works && v in works && Changed(base, w.tree, p) && Changed(base, v.tree, p) ensures w == v {
      var i :| 0 <= i < |works| && works[i] == w;
      var j :| 0 <= j < |works| && works[j] == v;
    }
  }

  /** The hash tells the base apart from every tree the run goes through. */
  ghost predicate Discerned(h: Hashing, base: Tree, works: seq<Work>, leases: seq<WriterLease>) {
    forall i :: 0 <= i <= |works| && IntegrateAll(h, base, works[..i], leases).Ok? ==>
      Distinguishes(h, base, IntegrateAll(h, base, works[..i], leases).value)
  }

  /** A change set that shares a changed path with one already integrated conflicts, whatever came between. */
  lemma SharedPathConflicts(h: Hashing, base: Tree, front: seq<Work>, w: Work, leases: seq<WriterLease>, p: string)
    requires PathDisjoint(base, front) && AllValid(h, base, front, leases) && AllValid(h, base, [w], leases)
    requires exists v :: v in front && Changed(base, v.tree, p)
    requires Changed(base, w.tree, p)
    requires IntegrateAll(h, base, front, leases).Ok? ==>
               Distinguishes(h, base, IntegrateAll(h, base, front, leases).value)
    ensures IntegrateAll(h, base, front, leases).Ok?
    ensures Merged(h, IntegrateAll(h, base, front, leases).value, CreateChangeSet(h, w.owner, base, w.tree), leases)
              == Err(Conflict)
  {
    DisjointAllIntegrate(h, base, front, leases);
    var t := IntegrateAll(h, base, front, leases).value;
    assert At(t, p) == JointAt(base, front, p);
    assert Changed(base, t, p);
    assert [w][0] == w;
    ConflictIff(h, w.owner, base, w.tree, t, leases);
  }

  /** Validated change sets of one base all integrate exactly when they are path-disjoint. */
  lemma {:induction false} AllIntegrateIff(h: Hashing, base: Tree, works: seq<Work>, leases: seq<WriterLease>)
    requires AllValid(h, base, works, leases) && Discerned(h, base, works, leases)
    ensures IntegrateAll(h, base, works, leases).Ok? <==> PathDisjoint(base, works)
  {
    if PathDisjoint(base, works) {
      DisjointAllIntegrate(h, base, works, leases);
    } else {
      var front, w := works[..|works| - 1], works[|works| - 1];
      DiscernedFront(h, base, works, leases);
      AllIntegrateIff(h, base, front, leases);
      if PathDisjoint(base, front) {
        var p := SharedWithLast(base, works);
        SharedPathConflicts(h, base, front, w, leases, p);
      }
    }
  }

  lemma DiscernedFront(h: Hashing, base: Tree, works: seq<Work>, leases: seq<WriterLease>)
    requires works != [] && AllValid(h, base, works, leases) && Discerned(h, base, works, leases)
    ensures var front := works[..|works| - 1];
            && AllValid(h, base, front, leases) && AllValid(h, base, [works[|works| - 1]], leases)
            && Discerned(h, base, front, leases)
            && (IntegrateAll(h, base, front, leases).Ok? ==>
                 Distinguishes(h, base, IntegrateAll(h, base, front, leases).value))
  {
    var front := works[..|works| - 1];
    assert forall i :: 0 <= i <= |front| ==> front[..i] == works[..i];
    assert front[..|front|] == front;
  }

  lemma SharedWithLast(base: Tree, works: seq<Work>) returns (p: string)
    requires works != [] && !PathDisjoint(base, works) && PathDisjoint(base, works[..|works| - 1])
    ensures Changed(base, works[|works| - 1].tree, p)
    ensures exists v :: v in works[..|works| - 1] && Changed(base, v.tree, p)
  {
    var front := works[..|works| - 1];
    var i, j, q :| 0 <= i < j < |works| && Changed(base, works[i].tree, q) && Changed(base, works[j].tree, q);
    p := q;
    assert forall k :: 0 <= k < |front| ==> front[k] == works[k];
    assert front[i] in front;
  }
}

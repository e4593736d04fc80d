/** Mapping changed paths and semantic observations to exactly one active lease. */
module Resolver {
  import opened Prelude
  import opened Parts
  import opened Regions
  import opened Domain
  import opened Paths
  import opened Workspace

  datatype ResolutionError = NotSemantic | NoResolver | WrongCandidate | SemanticLease | NotExactlyOne

  predicate Considered(l: WriterLease, baseRevision: string) {
    l.status.Active? && l.region.baseRevision == baseRevision
  }

  predicate HoldsPath(r: Region, path: string) {
    || (r.kind == File && r.selectorType == WholeResource && r.resourceId == path)
    || (r.kind == Directory && r.selectorType == PathPrefix && Under(Prefix(r.value), path))
  }

  /** Leases whose mere presence makes every workspace path unresolvable. */
  predicate Unresolvable(r: Region) {
    || r.kind == Database || r.kind == External
    || r.selectorType == Symbol || r.selectorType == AstNode || r.selectorType == RowKeys || r.selectorType == KeyRange
    || r.selectorType == Partition || r.selectorType == JsonPointer || r.selectorType == ProviderSubresource
  }

  predicate Blocks(l: WriterLease, baseRevision: string) {
    Considered(l, baseRevision) && Unresolvable(l.region)
  }

  /** The positions of the leases that satisfy `f`. */
  function Positions(leases: seq<WriterLease>, f: WriterLease -> bool): set<nat> {
    set i: nat | i < |leases| && f(leases[i])
  }

  /** Their regions, in list order. */
  function Matching(leases: seq<WriterLease>, f: WriterLease -> bool): seq<Region> {
    if leases == [] then []
    else
      Matching(leases[..|leases| - 1], f)
      + if f(leases[|leases| - 1]) then [leases[|leases| - 1].region] else []
  }

  lemma MatchingSnoc(leases: seq<WriterLease>, f: WriterLease -> bool, i: nat)
    requires i < |leases|
    ensures Matching(leases[..i + 1], f) == Matching(leases[..i], f) + if f(leases[i]) then [leases[i].region] else []
  {
    assert leases[..i + 1][..i] == leases[..i];
  }

  /** One match in the list is one position. */
  lemma {:induction false} MatchingCounts(leases: seq<WriterLease>, f: WriterLease -> bool)
    ensures |Matching(leases, f)| == |Positions(leases, f)|
    ensures |Matching(leases, f)| == 1 ==>
              exists i :: Positions(leases, f) == {i} && leases[i].region == Matching(leases, f)[0]
  {
    if leases == [] {
      assert Positions(leases, f) == {};
    } else {
      var n := |leases| - 1;
      var front := leases[..n];
      MatchingCounts(front, f);
      assert Positions(leases, f) == Positions(front, f) + if f(leases[n]) then {n} else {};
      if |Matching(leases, f)| == 1 && f(leases[n]) {
        assert Positions(leases, f) == {n};
      }
    }
  }

  function Holds(path: string, baseRevision: string): WriterLease -> bool {
    (l: WriterLease) => Considered(l, baseRevision) && HoldsPath(l.region, path)
  }

  /** The positions of the leases that hold a path. */
  function Holders(path: string, baseRevision: string, leases: seq<WriterLease>): set<nat> {
    Positions(leases, Holds(path, baseRevision))
  }

  /** What a path resolves to: the region of the only lease that holds it, when no lease blocks resolution. */
  ghost predicate ResolvesTo(path: string, baseRevision: string, leases: seq<WriterLease>, r: Region) {
    && !Blocked(leases, baseRevision)
    && exists i :: Holders(path, baseRevision, leases) == {i} && leases[i].region == r
  }

  /** What one considered region does to the resolution of a path. */
  datatype Bearing = Holding | Refusing | Indifferent

  function Bears(region: Region, path: string): Bearing {
    if region.kind == File && region.selectorType == WholeResource && region.resourceId == path then Holding
    else if region.kind == Directory && region.selectorType == PathPrefix then
      if Under(Prefix(region.value), path) then Holding else Indifferent
    else if Unresolvable(region) then Refusing
    else Indifferent
  }

  lemma HeldOrBlocked(l: WriterLease, path: string, baseRevision: string)
    ensures Holds(path, baseRevision)(l) <==> Considered(l, baseRevision) && Bears(l.region, path).Holding?
    ensures Blocks(l, baseRevision) <==> Considered(l, baseRevision) && Bears(l.region, path).Refusing?
  {}

  ghost predicate Blocked(leases: seq<WriterLease>, baseRevision: string) {
    exists i :: 0 <= i < |leases| && Blocks(leases[i], baseRevision)
  }

  lemma BlockedSnoc(leases: seq<WriterLease>, baseRevision: string, i: nat)
    requires i < |leases|
    ensures Blocked(leases[..i + 1], baseRevision) <==>
              Blocked(leases[..i], baseRevision) || Blocks(leases[i], baseRevision)
    ensures Blocked(leases[..i + 1], baseRevision) ==> Blocked(leases, baseRevision)
  {
    assert forall j :: 0 <= j <= i ==> leases[..i + 1][j] == leases[j];
    assert forall j :: 0 <= j < i ==> leases[..i][j] == leases[j];
  }

  method ResolveChangePath(path: string, baseRevision: string, leases: seq<WriterLease>)
    returns (r: Result<Region, ResolutionError>)
    ensures r.Ok? ==> ResolvesTo(path, baseRevision, leases, r.value)
    ensures r == Err(SemanticLease) <==> Blocked(leases, baseRevision)
    ensures r.Err? && r != Err(SemanticLease) ==> r == Err(NotExactlyOne) && |Holders(path, baseRevision, leases)| != 1
  {
    var matches: seq<Region> := [];
    for i := 0 to |leases|
      invariant !Blocked(leases[..i], baseRevision)
      invariant matches == Matching(leases[..i], Holds(path, baseRevision))
    {
      MatchingSnoc(leases, Holds(path, baseRevision), i);
      BlockedSnoc(leases, baseRevision, i);
      HeldOrBlocked(leases[i], path, baseRevision);
      if Considered(leases[i], baseRevision) {
        var bearing := Bears(leases[i].region, path);
        if bearing.Refusing? { return Err(SemanticLease); }
        if bearing.Holding? { matches := matches + [leases[i].region]; }
      }
    }
    TakeAll(leases);
    OnlyHolder(path, baseRevision, leases);
    return if |matches| != 1 then Err(NotExactlyOne) else Ok(matches[0]);
  }

  lemma OnlyHolder(path: string, baseRevision: string, leases: seq<WriterLease>)
    requires !Blocked(leases, baseRevision)
    ensures var matches := Matching(leases, Holds(path, baseRevision));
            if |matches| == 1 then ResolvesTo(path, baseRevision, leases, matches[0])
                else |Holders(path, baseRevision, leases)| != 1
  {
    MatchingCounts(leases, Holds(path, baseRevision));
  }

  /** Resolution of a path, as a value. */
  ghost predicate Resolvable(path: string, baseRevision: string, leases: seq<WriterLease>) {
    exists r :: ResolvesTo(path, baseRevision, leases, r)
  }

  ghost predicate AllResolvable(cs: ChangeSet, leases: seq<WriterLease>) {
    forall i :: 0 <= i < |cs.files| ==> Resolvable(cs.files[i].path, cs.baseRevision, leases)
  }

  /** Resolves every changed path; one failure rejects the whole change set. */
  method ResolveChangeSet(cs: ChangeSet, leases: seq<WriterLease>) returns (r: Result<seq<Region>, ResolutionError>)
    ensures r.Ok? <==> AllResolvable(cs, leases)
    ensures r.Ok? ==> |r.value| == |cs.files| && Resolved(cs, leases, r.value)
  {
    var regions: seq<Region> := [];
    for i := 0 to |cs.files|
      invariant |regions| == i && Resolved(cs, leases, regions)
    {
      var one := ResolveChangePath(cs.files[i].path, cs.baseRevision, leases);
      if one.Err? {
        assert !Resolvable(cs.files[i].path, cs.baseRevision, leases);
        return Err(one.error);
      }
      ResolvedSnoc(cs, leases, regions, one.value);
      regions := regions + [one.value];
    }
    AllOfThem(cs, leases, regions);
    return Ok(regions);
  }

  ghost predicate Resolved(cs: ChangeSet, leases: seq<WriterLease>, regions: seq<Region>) {
    && |regions| <= |cs.files|
    && forall j :: 0 <= j < |regions| ==> ResolvesTo(cs.files[j].path, cs.baseRevision, leases, regions[j])
  }

  lemma ResolvedSnoc(cs: ChangeSet, leases: seq<WriterLease>, regions: seq<Region>, r: Region)
    requires Resolved(cs, leases, regions) && |regions| < |cs.files|
    requires ResolvesTo(cs.files[|regions|].path, cs.baseRevision, leases, r)
    ensures Resolved(cs, leases, regions + [r])
  {}

  lemma AllOfThem(cs: ChangeSet, leases: seq<WriterLease>, regions: seq<Region>)
    requires Resolved(cs, leases, regions) && |regions| == |cs.files|
    ensures AllResolvable(cs, leases)
  {
    forall i | 0 <= i < |cs.files| ensures Resolvable(cs.files[i].path, cs.baseRevision, leases) {
      assert ResolvesTo(cs.files[i].path, cs.baseRevision, leases, regions[i]);
    }
  }

  // ---------- Integrated owners never share a path ----------

  /** A lease path written in normal form, up to trailing slashes. */
  predicate Normalised(r: Region) {
    && (r.kind == File && NormalPath(r.resourceId).Some? ==> NormalPath(r.resourceId) == Some(r.resourceId))
    && (r.kind == Directory && r.selectorType == PathPrefix && NormalPath(Show(r.value)).Some? ==>
          NormalPath(Show(r.value)) == Some(Prefix(r.value)))
  }

  /** On normalised leases the adapter allows only what the resolver also counts. */
  lemma AllowedIsHeld(path: string, r: Region, baseRevision: string)
    requires Normalised(r) && Allows(path, r, baseRevision) == Ok(true)
    ensures HoldsPath(r, path)
  {
    if r.kind == Directory { NormalIdempotent(Show(r.value)); }
  }

  /** On normalised leases with a normal form the adapter allows everything the resolver counts. */
  lemma HeldIsAllowed(path: string, r: Region)
    requires Normalised(r) && HoldsPath(r, path)
    requires NormalPath(if r.kind == File then r.resourceId else Show(r.value)).Some?
    ensures Allows(path, r, r.baseRevision) == Ok(true)
  {
    if r.kind == Directory { NormalIdempotent(Show(r.value)); }
  }

  /** The resolver holds a path by the lease's text as it stands: its own file, or a prefix of the path's parts. */
  lemma HoldsIff(r: Region, path: string)
    ensures HoldsPath(r, path) <==>
              || (r.kind == File && r.selectorType == WholeResource && r.resourceId == path)
              || (r.kind == Directory && r.selectorType == PathPrefix && Leads(Show(r.value), path))
  {
    LeadsIff(Show(r.value), path);
  }

  /** Leases that make a path unresolvable are all but files and directories selected whole or by prefix. */
  lemma UnresolvableIff(r: Region)
    ensures !Unresolvable(r) <==>
              r.kind in {File, Directory} && r.selectorType in {PathPrefix, WholeResource}
  {}

  /** Ended leases and leases at another revision neither hold a path nor block its resolution. */
  lemma OthersIgnored(l: WriterLease, path: string, baseRevision: string)
    ensures !l.status.Active? || l.region.baseRevision != baseRevision ==>
              !Holds(path, baseRevision)(l) && !Blocks(l, baseRevision)
    ensures l.status.Active? && l.region.baseRevision == baseRevision ==>
              && (Holds(path, baseRevision)(l) <==> HoldsPath(l.region, path))
              && (Blocks(l, baseRevision) <==> Unresolvable(l.region))
  {}

  /** What the integration service demands of a change set before the tree changes. */
  ghost predicate Accepted(cs: ChangeSet, leases: seq<WriterLease>) {
    AllResolvable(cs, leases) && Validate(cs, cs.files, leases) == None
  }

  /**
     Under one list of normalised leases, two accepted change sets of one base and different owners
     touch no common path: the path would have a lease of each owner, and the resolver demands one.
   */
  lemma OwnersNeverShare(a: ChangeSet, b: ChangeSet, leases: seq<WriterLease>, p: string)
    requires forall i :: 0 <= i < |leases| && leases[i].status.Active? ==> Normalised(leases[i].region)
    requires Accepted(a, leases) && Accepted(b, leases)
    requires a.baseRevision == b.baseRevision && a.ownerId != b.ownerId
    ensures !(Touches(a, p) && Touches(b, p))
  {
    if Touches(a, p) && Touches(b, p) {
      OneHolder(a, leases, p);
      var i := HolderOf(a, leases, p);
      var j := HolderOf(b, leases, p);
    }
  }

  lemma OneHolder(cs: ChangeSet, leases: seq<WriterLease>, p: string)
    requires AllResolvable(cs, leases) && Touches(cs, p)
    ensures exists i :: Holders(p, cs.baseRevision, leases) == {i}
  {
    var k :| 0 <= k < |cs.files| && cs.files[k].path == p;
    assert Resolvable(cs.files[k].path, cs.baseRevision, leases);
  }

  lemma HolderOf(cs: ChangeSet, leases: seq<WriterLease>, p: string) returns (i: nat)
    requires forall k :: 0 <= k < |leases| && leases[k].status.Active? ==> Normalised(leases[k].region)
    requires Validate(cs, cs.files, leases) == None && Touches(cs, p)
    ensures i < |leases| && leases[i].ownerAgentId == cs.ownerId && i in Holders(p, cs.baseRevision, leases)
  {
    var k :| 0 <= k < |cs.files| && cs.files[k].path == p;
    ValidatedPaths(cs, cs.files, leases, k);
    i :| 0 <= i < |leases| && leases[i].status.Active? && leases[i].ownerAgentId == cs.ownerId
         && Allows(cs.files[k].path, leases[i].region, cs.baseRevision) == Ok(true);
    AllowedIsHeld(p, leases[i].region, cs.baseRevision);
  }

  function FileLease(id: string, owner: string, path: string): WriterLease {
    WriterLease(id, 1, "child", owner, Region(File, path, WholeResource, Regions.Text(""), "r"), Active, 0, None)
  }

  /**
     Two leases of different owners that spell one path: both owners' changes are accepted exactly when
     one spelling is not normal.
   */
  lemma SecondSpellingShares(p: string, q: string, a: string, b: string, change: FileChange)
    requires NormalPath(p) == Some(p) && NormalPath(q) == Some(p) && a != b && change.path == p
    ensures var leases := [FileLease("l1", a, p), FileLease("l2", b, q)];
            Accepted(ChangeSet(a, "r", [change]), leases) && Accepted(ChangeSet(b, "r", [change]), leases) <==> q != p
  {
    var leases := [FileLease("l1", a, p), FileLease("l2", b, q)];
    BothAllowed(leases, p, a, b);
    SpelledOnce(leases, p, q);
    AcceptedOne(a, change, leases);
    AcceptedOne(b, change, leases);
  }

  lemma AcceptedOne(owner: string, change: FileChange, leases: seq<WriterLease>)
    ensures Accepted(ChangeSet(owner, "r", [change]), leases)
       <==> Resolvable(change.path, "r", leases) && AnyAllows(change.path, owner, "r", leases) == Ok(true)
  {
    var cs := ChangeSet(owner, "r", [change]);
    assert cs.files[0] == change && cs.files[1..] == [];
    assert Validate(cs, cs.files[1..], leases) == None;
  }

  lemma SpelledOnce(leases: seq<WriterLease>, p: string, q: string)
    requires |leases| == 2 && Spells(leases[0], p) && Spells(leases[1], q)
    ensures Resolvable(p, "r", leases) <==> q != p
  {
    if q != p {
      assert Holders(p, "r", leases) == {0};
      assert ResolvesTo(p, "r", leases, leases[0].region);
    } else {
      assert 0 in Holders(p, "r", leases) && 1 in Holders(p, "r", leases);
    }
  }

  predicate Spells(l: WriterLease, path: string) {
    l.status.Active? && l.region.kind == File && l.region.selectorType == WholeResource
    && l.region.resourceId == path && l.region.baseRevision == "r"
  }

  lemma BothAllowed(leases: seq<WriterLease>, p: string, a: string, b: string)
    requires |leases| == 2 && a != b
               && NormalPath(leases[0].region.resourceId) == NormalPath(leases[1].region.resourceId) == Some(p)
    requires leases == [FileLease("l1", a, leases[0].region.resourceId),
               FileLease("l2", b, leases[1].region.resourceId)]
    ensures AnyAllows(p, a, "r", leases) == Ok(true) && AnyAllows(p, b, "r", leases) == Ok(true)
  {
    assert leases[1..][0] == leases[1];
    assert AnyAllows(p, b, "r", leases[1..]) == Ok(true);
  }

  /** Such spellings exist: `./a` names `a`, and overlap between the two leases does not show it. */
  lemma DotSpelling()
    ensures NormalPath("a") == Some("a") && NormalPath("./a") == Some("a")
    ensures !Overlaps(FileLease("l1", "o1", "a").region, FileLease("l2", "o2", "./a").region)
  {
    assert Slashed("a") == "a" && Slashed("./a") == "./a";
    SplitPlain("a");
    SplitPlain(".");
    SplitHead(".", "a");
    assert "." + "/" + "a" == "./a";
    assert Kept(["a"]) == ["a"];
    assert [".", "a"][1..] == ["a"];
  }

  // ---------- Semantic observations ----------

  /** The same resource, selector and revision, up to equality of selector values. */
  predicate SameRegion(a: Region, b: Region) {
    SameResource(a, b) && a.selectorType == b.selectorType && SameValue(a.value, b.value)
  }

  /**
     Resolves a database or external observation: the trusted resolver must answer with the observed
     region, and exactly one active lease may overlap its answer.
   */
  method ResolveObservation(observed: Region, answer: Option<Region>, leases: seq<WriterLease>)
    returns (r: Result<Region, ResolutionError>)
    ensures r.Ok? <==>
              && (observed.kind == Database || observed.kind == External)
              && answer.Some? && SameRegion(answer.value, observed) && |Overlapping(answer.value, leases)| == 1
    ensures r.Ok? ==>
              exists i :: Overlapping(answer.value, leases) == {i} && leases[i].region == r.value
                  && Overlaps(r.value, answer.value)
    ensures r.Err? ==> r == Err(if observed.kind != Database && observed.kind != External then NotSemantic
                                else if answer.None? then NoResolver
                                else if !SameRegion(answer.value, observed) then WrongCandidate else NotExactlyOne)
  {
    if observed.kind != Database && observed.kind != External { return Err(NotSemantic); }
    if answer.None? { return Err(NoResolver); }
    var candidate := answer.value;
    if candidate.kind != observed.kind { return Err(WrongCandidate); }
    if candidate.resourceId != observed.resourceId || candidate.selectorType != observed.selectorType {
      return Err(WrongCandidate);
    }
    if !SameValue(candidate.value, observed.value) { return Err(WrongCandidate); }
    if candidate.baseRevision != observed.baseRevision { return Err(WrongCandidate); }
    var matches: seq<Region> := [];
    for i := 0 to |leases|
      invariant matches == Matching(leases[..i], Covering(candidate))
    {
      MatchingSnoc(leases, Covering(candidate), i);
      if leases[i].status.Active? && Overlaps(leases[i].region, candidate) {
        matches := matches + [leases[i].region];
      }
    }
    assert leases[..|leases|] == leases;
    MatchingCounts(leases, Covering(candidate));
    return if |matches| != 1 then Err(NotExactlyOne) else Ok(matches[0]);
  }

  function Covering(observed: Region): WriterLease -> bool {
    (l: WriterLease) => l.status.Active? && Overlaps(l.region, observed)
  }

  function Overlapping(observed: Region, leases: seq<WriterLease>): set<nat> {
    Positions(leases, Covering(observed))
  }
}

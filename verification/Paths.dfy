/** Workspace paths: the order they are listed in, and the normal form of a relative path. */
module Paths {
  import opened Prelude
  import opened Parts
  import opened Regions

  // ---------- Order ----------

  /** Lexicographic order on strings. */
  predicate Before(a: string, b: string) {
    b != "" && (a == "" || a[0] < b[0] || (a[0] == b[0] && Before(a[1..], b[1..])))
  }

  lemma {:induction false} BeforeTotal(a: string, b: string)
    ensures Before(a, b) || a == b || Before(b, a)
    ensures !(Before(a, b) && Before(b, a)) && !Before(a, a)
  {
    if a != "" && b != "" && a[0] == b[0] {
      BeforeTotal(a[1..], b[1..]);
      if a[1..] == b[1..] { assert a == [a[0]] + a[1..] && b == [b[0]] + b[1..]; }
    }
    if a != "" { BeforeTotal(a[1..], a[1..]); }
  }

  lemma {:induction false} BeforeTransitive(a: string, b: string, c: string)
    requires Before(a, b) && Before(b, c)
    ensures Before(a, c)
  {
    if a != "" && a[0] == b[0] == c[0] { BeforeTransitive(a[1..], b[1..], c[1..]); }
  }

  /** Up to `k` the two agree, and there the first ends or has the smaller character. */
  predicate FirstAt(a: string, b: string, k: nat) {
    && k <= |a| && k < |b| && a[..k] == b[..k]
    && (k == |a| || a[k] < b[k])
  }

  /** The order is the usual one: a proper prefix, or the smaller character at the first difference, comes first. */
  lemma {:induction false} BeforeIff(a: string, b: string)
    ensures Before(a, b) <==> exists k: nat :: FirstAt(a, b, k)
  {
    if a == "" || b == "" {
      if b != "" { assert FirstAt(a, b, 0); }
    } else if a[0] != b[0] {
      assert a[0] < b[0] ==> FirstAt(a, b, 0);
      forall k: nat | FirstAt(a, b, k) ensures a[0] < b[0] {
        if k > 0 { assert a[..k][0] == b[..k][0]; }
      }
    } else {
      BeforeIff(a[1..], b[1..]);
      forall k: nat | FirstAt(a[1..], b[1..], k) ensures FirstAt(a, b, k + 1) {
        assert a[..k + 1] == [a[0]] + a[1..][..k] && b[..k + 1] == [b[0]] + b[1..][..k];
      }
      forall k: nat | FirstAt(a, b, k) ensures k > 0 && FirstAt(a[1..], b[1..], k - 1) {
        if k > 0 { assert a[1..][..k - 1] == a[..k][1..] && b[1..][..k - 1] == b[..k][1..]; }
      }
    }
  }

  lemma {:induction false} FirstOf(s: set<string>) returns (m: string)
    requires s != {}
    ensures m in s && forall x :: x in s && x != m ==> Before(m, x)
    decreases |s|
  {
    var a :| a in s;
    assert forall x :: x in s && x != a ==> x in s - {a};
    if s - {a} == {} {
      m := a;
    } else {
      var rest := FirstOf(s - {a});
      BeforeTotal(a, rest);
      m := if Before(a, rest) then a else rest;
      forall x | x in s && x != m ensures Before(m, x) {
        if x != a && x != rest && m == a { BeforeTransitive(a, rest, x); }
      }
    }
  }

  predicate Ascending(s: seq<string>) {
    forall i, j :: 0 <= i < j < |s| ==> Before(s[i], s[j])
  }

  lemma ConsAscending(m: string, rest: seq<string>)
    requires Ascending(rest) && forall x :: x in rest ==> Before(m, x)
    ensures Ascending([m] + rest)
  {}

  /** The members of a set, in order. */
  function Sorted(s: set<string>): (r: seq<string>)
    ensures Ascending(r)
    ensures forall x :: x in r <==> x in s
    decreases |s|
  {
    if s == {} then []
    else
      assert exists m :: m in s && forall x :: x in s && x != m ==> Before(m, x) by {
        var first := FirstOf(s);
      }
      assert forall a, b :: a in s && b in s && Before(a, b) ==> !Before(b, a) by {
        forall a, b | a in s && b in s { BeforeTotal(a, b); }
      }
      var m :| m in s && forall x :: x in s && x != m ==> Before(m, x);
      var rest := Sorted(s - {m});
      assert Ascending([m] + rest) by { ConsAscending(m, rest); }
      [m] + rest
  }

  // ---------- Normal form ----------

  function Kept(parts: seq<string>): seq<string> {
    if parts == [] then []
    else (if parts[0] == "" || parts[0] == "." then [] else [parts[0]]) + Kept(parts[1..])
  }

  function Slashed(s: string): (r: string)
    ensures |r| == |s| && forall i :: 0 <= i < |s| ==> r[i] == if s[i] == '\\' then '/' else s[i]
  {
    seq(|s|, i requires 0 <= i < |s| => if s[i] == '\\' then '/' else s[i])
  }

  /** The normal form of a relative path; None where the program refuses the path. */
  function NormalPath(value: string): Option<string> {
    var s := Slashed(value);
    var parts := Kept(Split(s));
    if (s != "" && s[0] == '/') || ".." in parts || parts == [] then None else Some(JoinParts(parts))
  }

  predicate Plain(part: string) {
    part != "" && part != "." && '/' !in part && '\\' !in part
  }

  ghost predicate PlainParts(parts: seq<string>) {
    forall i :: 0 <= i < |parts| ==> Plain(parts[i])
  }

  lemma {:induction false} SplitClean(s: string)
    requires '\\' !in s
    ensures forall i :: 0 <= i < |Split(s)| ==> '/' !in Split(s)[i] && '\\' !in Split(s)[i]
  {
    if s != "" { SplitClean(s[1..]); }
  }

  lemma {:induction false} KeptPlain(parts: seq<string>)
    requires forall i :: 0 <= i < |parts| ==> '/' !in parts[i] && '\\' !in parts[i]
    ensures PlainParts(Kept(parts))
  {
    if parts != [] { KeptPlain(parts[1..]); }
  }

  lemma {:induction false} KeptAll(parts: seq<string>)
    requires PlainParts(parts)
    ensures Kept(parts) == parts
  {
    if parts != [] { KeptAll(parts[1..]); }
  }

  /** A joined path starts with the first part, ends with the last, and brings in nothing but slashes. */
  lemma {:induction false} JoinShape(parts: seq<string>)
    requires parts != [] && PlainParts(parts)
    ensures var p := JoinParts(parts);
            p != "" && p[0] != '/' && p[|p| - 1] != '/' && '\\' !in p
  {
    if |parts| > 1 { JoinShape(parts[1..]); }
  }

  lemma NormalParts(value: string)
    requires NormalPath(value).Some?
    ensures var parts := Kept(Split(Slashed(value)));
            parts != [] && PlainParts(parts) && ".." !in parts && NormalPath(value) == Some(JoinParts(parts))
  {
    SplitClean(Slashed(value));
    KeptPlain(Split(Slashed(value)));
  }

  /** Joining plain parts other than `..` gives a path that is already normal. */
  lemma PlainJoinIsNormal(parts: seq<string>)
    requires parts != [] && PlainParts(parts) && ".." !in parts
    ensures NormalPath(JoinParts(parts)) == Some(JoinParts(parts))
  {
    JoinShape(parts);
    assert Slashed(JoinParts(parts)) == JoinParts(parts);
    SplitJoin(parts);
    KeptAll(parts);
  }

  /**
     The normal paths are exactly the joins of plain parts other than `..`: none is absolute or leaves
     the workspace.
   */
  lemma NormalExactly(p: string)
    ensures NormalPath(p) == Some(p) <==>
              exists parts :: parts != [] && PlainParts(parts) && ".." !in parts && p == JoinParts(parts)
  {
    if NormalPath(p) == Some(p) {
      NormalParts(p);
      var parts := Kept(Split(Slashed(p)));
      assert parts != [] && PlainParts(parts) && ".." !in parts && p == JoinParts(parts);
    }
    if parts :| parts != [] && PlainParts(parts) && ".." !in parts && p == JoinParts(parts) {
      PlainJoinIsNormal(parts);
    }
  }

  /** A normal path is its own normal form, and has no slash at either end. */
  lemma NormalIdempotent(value: string)
    requires NormalPath(value).Some?
    ensures var p := NormalPath(value).value;
            NormalPath(p) == Some(p) && p != "" && p[0] != '/' && StripSlashes(p) == p
  {
    NormalParts(value);
    var parts := Kept(Split(Slashed(value)));
    JoinShape(parts);
    PlainJoinIsNormal(parts);
  }

  // ---------- Spellings of a path ----------

  /** The segments are the parts, with empty segments and dots anywhere between them. */
  predicate Padded(segments: seq<string>, parts: seq<string>) {
    if segments == [] then parts == []
    else if segments[0] == "" || segments[0] == "." then Padded(segments[1..], parts)
    else parts != [] && parts[0] == segments[0] && Padded(segments[1..], parts[1..])
  }

  lemma {:induction false} PaddedKept(segments: seq<string>, parts: seq<string>)
    requires Padded(segments, parts)
    ensures Kept(segments) == parts && (".." in segments <==> ".." in parts)
  {
    if segments != [] {
      if segments[0] == "" || segments[0] == "." {
        PaddedKept(segments[1..], parts);
        assert segments == [segments[0]] + segments[1..];
      } else {
        PaddedKept(segments[1..], parts[1..]);
        assert segments == [segments[0]] + segments[1..] && parts == [parts[0]] + parts[1..];
      }
    }
  }

  lemma {:induction false} JoinedHead(segments: seq<string>)
    requires segments != [] && forall i :: 0 <= i < |segments| ==> '/' !in segments[i]
    ensures JoinParts(segments) != "" && JoinParts(segments)[0] == '/' <==> segments[0] == "" && |segments| > 1
  {}

  lemma {:induction false} JoinedClean(segments: seq<string>)
    requires forall i :: 0 <= i < |segments| ==> '\\' !in segments[i]
    ensures '\\' !in JoinParts(segments)
  {
    if |segments| > 1 { JoinedClean(segments[1..]); }
  }

  /**
     A path written as segments names the parts that are left without its empty segments and dots. It is
     refused when it starts with a slash, when a segment is two dots, and when nothing is left.
   */
  lemma NormalSpelled(segments: seq<string>, parts: seq<string>)
    requires segments != [] && Padded(segments, parts)
    requires forall i :: 0 <= i < |segments| ==> '/' !in segments[i] && '\\' !in segments[i]
    ensures NormalPath(JoinParts(segments))
         == if (segments[0] == "" && |segments| > 1) || ".." in segments || parts == [] then None
            else Some(JoinParts(parts))
  {
    JoinedClean(segments);
    assert Slashed(JoinParts(segments)) == JoinParts(segments);
    SplitJoin(segments);
    PaddedKept(segments, parts);
    JoinedHead(segments);
  }

  /** Every path is some segments, and a backslash counts as a slash. */
  lemma EverySpelling(value: string)
    ensures NormalPath(value) == NormalPath(Slashed(value)) && JoinParts(Split(Slashed(value))) == Slashed(value)
  {
    assert Slashed(Slashed(value)) == Slashed(value);
    JoinSplit(Slashed(value));
  }
}

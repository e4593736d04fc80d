/** The parts of a slash-separated path. */
module Parts {
  function Split(s: string): (r: seq<string>)
    ensures |r| >= 1
  {
    if s == "" then [""]
    else
      var r := Split(s[1..]);
      if s[0] == '/' then [""] + r else [[s[0]] + r[0]] + r[1..]
  }

  function JoinParts(parts: seq<string>): string {
    if |parts| == 0 then ""
    else if |parts| == 1 then parts[0]
    else parts[0] + "/" + JoinParts(parts[1..])
  }

  lemma {:induction false} SplitHead(a: string, rest: string)
    requires '/' !in a
    ensures Split(a + "/" + rest) == [a] + Split(rest)
  {
    if a == "" {
      assert a + "/" + rest == "/" + rest;
      assert ("/" + rest)[1..] == rest;
    } else {
      assert (a + "/" + rest)[1..] == a[1..] + "/" + rest;
      SplitHead(a[1..], rest);
      assert [a[0]] + a[1..] == a;
    }
  }

  lemma {:induction false} SplitPlain(a: string)
    requires '/' !in a
    ensures Split(a) == [a]
  {
    if a != "" {
      SplitPlain(a[1..]);
      assert [a[0]] + a[1..] == a;
    }
  }

  lemma {:induction false} SplitJoin(parts: seq<string>)
    requires parts != [] && forall i :: 0 <= i < |parts| ==> '/' !in parts[i]
    ensures Split(JoinParts(parts)) == parts
  {
    if |parts| == 1 {
      SplitPlain(parts[0]);
    } else {
      SplitJoin(parts[1..]);
      SplitHead(parts[0], JoinParts(parts[1..]));
    }
  }

  lemma {:induction false} JoinSplit(s: string)
    ensures JoinParts(Split(s)) == s
  {
    if s != "" {
      JoinSplit(s[1..]);
      var r := Split(s[1..]);
      if s[0] == '/' {
        assert Split(s)[1..] == r;
        assert JoinParts(Split(s)) == "" + "/" + JoinParts(r);
      } else {
        var head := [s[0]] + r[0];
        assert Split(s) == [head] + r[1..];
        assert |r| > 1 ==> [s[0]] + (r[0] + "/" + JoinParts(r[1..])) == head + "/" + JoinParts(r[1..]);
      }
      assert s == [s[0]] + s[1..];
    }
  }

  lemma SplitFirst(s: string)
    ensures Split(s)[0] == "" <==> s == "" || s[0] == '/'
    ensures s != "" && s[0] == '/' ==> |Split(s)| > 1
  {}

  /** Parts in front are text in front, with a slash behind it. */
  lemma {:induction false} SplitPrefix(p: string, q: string)
    requires Split(p) <= Split(q)
    ensures p <= q && (|p| < |q| ==> q[|p|] == '/')
  {
    SplitFirst(p);
    SplitFirst(q);
    assert Split(p)[0] == Split(q)[0];
    if p != "" && q != "" {
      if p[0] == '/' {
        assert Split(p)[1..] == Split(p[1..]) && Split(q)[1..] == Split(q[1..]);
      } else {
        var a, b := Split(p[1..]), Split(q[1..]);
        assert Split(p)[0] == [p[0]] + a[0] && Split(q)[0] == [q[0]] + b[0];
        assert p[0] == Split(p)[0][0] == Split(q)[0][0] == q[0];
        assert a[0] == Split(p)[0][1..] == Split(q)[0][1..] == b[0];
        assert Split(p)[1..] == a[1..] && Split(q)[1..] == b[1..];
        assert a == [a[0]] + a[1..] && b == [b[0]] + b[1..];
      }
      SplitPrefix(p[1..], q[1..]);
    }
  }

  /** One more character in front: a slash opens a new part, any other grows the first. */
  function Grown(c: char, parts: seq<string>): seq<string>
    requires parts != []
  {
    if c == '/' then [""] + parts else [[c] + parts[0]] + parts[1..]
  }

  lemma SplitGrows(s: string)
    requires s != ""
    ensures Split(s) == Grown(s[0], Split(s[1..]))
  {}

  lemma GrownFront(c: char, a: seq<string>, b: seq<string>)
    requires a != []
    ensures Grown(c, a) + b == Grown(c, a + b)
  {
    assert (a + b)[0] == a[0] && (a + b)[1..] == a[1..] + b;
  }

  /** A path below another has its parts in front. */
  lemma {:induction false} SplitBelow(p: string, rest: string)
    ensures Split(p + "/" + rest) == Split(p) + Split(rest)
  {
    var q := p + "/" + rest;
    SplitGrows(q);
    if p == "" {
      assert q[0] == '/' && q[1..] == rest;
    } else {
      assert q[0] == p[0] && q[1..] == p[1..] + "/" + rest;
      SplitGrows(p);
      SplitBelow(p[1..], rest);
      GrownFront(p[0], Split(p[1..]), Split(rest));
    }
  }
}

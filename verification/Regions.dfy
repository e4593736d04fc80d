/** The region algebra: overlap decides which leases may coexist, coverage decides which writes are in bounds. */
module Regions {
  import opened Prelude
  import opened Parts

  datatype ResourceKind = File | Directory | Database | External

  datatype SelectorType =
    | Symbol | AstNode | PathPrefix | RowKeys | KeyRange | Partition | JsonPointer | ProviderSubresource | WholeResource

  /** A number as the program writes it: integers, booleans and finite floats are all fractions. */
  datatype Number = Number(numerator: int, denominator: Denominator)

  type Denominator = n: int | n > 0 witness 1

  function Reads(n: Number): real {
    n.numerator as real / n.denominator as real
  }

  /**
     One scalar inside a selector: how it prints, the number it reads as, if any, and whether it is a
     number (an integer, a float or a boolean) rather than text or null.
   */
  datatype Item = Item(shown: string, number: Option<Number>, numeric: bool)

  datatype Value =
    | Text(text: string)
    | Scalar(item: Item)
    | List(items: seq<Item>)
    | KeyDict(items: seq<Item>)
    | Span(start: Item, end: Item)

  datatype Region = Region(
    kind: ResourceKind, resourceId: string, selectorType: SelectorType, value: Value, baseRevision: string)

  // ---------- Equality of selector values ----------

  function Magnitude(i: Item): Option<real> {
    if i.number.None? then None else Some(Reads(i.number.value))
  }

  /** Numbers are equal by value however they print, so 1, 1.0 and true are one; other scalars by themselves. */
  predicate SameItem(a: Item, b: Item) {
    if a.numeric && b.numeric then Magnitude(a) == Magnitude(b) else a == b
  }

  predicate SameItems(a: seq<Item>, b: seq<Item>) {
    |a| == |b| && forall i :: 0 <= i < |a| ==> SameItem(a[i], b[i])
  }

  predicate SameValue(a: Value, b: Value) {
    match (a, b)
    case (Text(s), Text(t)) => s == t
    case (Scalar(i), Scalar(j)) => SameItem(i, j)
    case (List(i), List(j)) => SameItems(i, j)
    case (KeyDict(i), KeyDict(j)) => SameItems(i, j)
    case (Span(i, j), Span(k, l)) => SameItem(i, k) && SameItem(j, l)
    case _ => false
  }

  lemma SameValueEquivalence(a: Value, b: Value, c: Value)
    ensures SameValue(a, a)
    ensures SameValue(a, b) <==> SameValue(b, a)
    ensures SameValue(a, b) && SameValue(b, c) ==> SameValue(a, c)
  {}

  // ---------- What a selector value reads as ----------

  function Join(items: seq<Item>): string {
    if items == [] then ""
    else if |items| == 1 then items[0].shown
    else items[0].shown + ", " + Join(items[1..])
  }

  /** The printed form of a selector value. */
  function Show(v: Value): string {
    match v
    case Text(t) => t
    case Scalar(i) => i.shown
    case List(items) => "[" + Join(items) + "]"
    case KeyDict(items) => "{'keys': [" + Join(items) + "]}"
    case Span(a, b) => "{'start': " + a.shown + ", 'end': " + b.shown + "}"
  }

  function StripSlashes(s: string): (t: string)
    ensures t <= s
  {
    if s != "" && s[|s| - 1] == '/' then StripSlashes(s[..|s| - 1]) else s
  }

  /** The prefix a path-like selector stands for. */
  function Prefix(v: Value): string {
    StripSlashes(Show(v))
  }

  predicate Under(prefix: string, path: string) {
    path == prefix || prefix + "/" <= path
  }

  function ValueSet(v: Value): Option<set<string>> {
    match v
    case List(items) => Some(set i | 0 <= i < |items| :: items[i].shown)
    case KeyDict(items) => Some(set i | 0 <= i < |items| :: items[i].shown)
    case _ => None
  }

  function Bounds(v: Value): Option<(real, real)> {
    match v
    case Span(a, b) => Between(a, b)
    case List(items) => if |items| == 2 then Between(items[0], items[1]) else None
    case _ => None
  }

  function Between(a: Item, b: Item): Option<(real, real)> {
    if a.number.Some? && b.number.Some? then Some((Reads(a.number.value), Reads(b.number.value))) else None
  }

  function Max(a: real, b: real): real { if a >= b then a else b }

  function Min(a: real, b: real): real { if a <= b then a else b }

  predicate RangesOverlap(left: Value, right: Value) {
    var a, b := Bounds(left), Bounds(right);
    a.None? || b.None? || Max(a.value.0, b.value.0) <= Min(a.value.1, b.value.1)
  }

  predicate PathsOverlap(left: Value, right: Value) {
    Under(Prefix(right), Prefix(left)) || Under(Prefix(left), Prefix(right))
  }

  predicate Overlaps(a: Region, b: Region) {
    if a.kind != b.kind || a.resourceId != b.resourceId then false
    else if a.baseRevision != b.baseRevision then true
    else if a.selectorType == WholeResource || b.selectorType == WholeResource then true
    else if a.selectorType != b.selectorType then true
    else
      match a.selectorType
      case Symbol => SameValue(a.value, b.value)
      case PathPrefix => PathsOverlap(a.value, b.value)
      case RowKeys =>
        var left, right := ValueSet(a.value), ValueSet(b.value);
        left.None? || right.None? || left.value * right.value != {}
      case Partition => SameValue(a.value, b.value)
      case KeyRange => RangesOverlap(a.value, b.value)
      case JsonPointer => PathsOverlap(a.value, b.value)
      case ProviderSubresource => SameValue(a.value, b.value)
      case _ => true
  }

  predicate SameResource(a: Region, b: Region) {
    a.kind == b.kind && a.resourceId == b.resourceId && a.baseRevision == b.baseRevision
  }

  predicate Covers(allowed: Region, requested: Region) {
    if !SameResource(allowed, requested) then false
    else if allowed.selectorType == WholeResource then true
    else if allowed.selectorType == PathPrefix && requested.selectorType == PathPrefix then
      Under(Prefix(allowed.value), Prefix(requested.value))
    else allowed.selectorType == requested.selectorType && SameValue(allowed.value, requested.value)
  }

  // ---------- What a selector denotes ----------

  datatype Point = Path(path: string) | Row(key: string) | Coordinate(x: real) | Named(value: Value)

  /** The text without its trailing slashes. */
  ghost predicate Trimmed(text: string, t: string) {
    && t <= text && (forall i :: |t| <= i < |text| ==> text[i] == '/')
    && (t != "" ==> t[|t| - 1] != '/')
  }

  /** A path-like selector denotes the paths whose first parts are its own. */
  ghost predicate Leads(text: string, path: string) {
    exists t :: Trimmed(text, t) && Split(t) <= Split(path)
  }

  predicate Lists(v: Value, key: string) {
    match v
    case List(items) => exists i :: 0 <= i < |items| && items[i].shown == key
    case KeyDict(items) => exists i :: 0 <= i < |items| && items[i].shown == key
    case _ => false
  }

  predicate From(i: Item, x: real) {
    i.number.Some? && i.number.value.numerator as real <= x * i.number.value.denominator as real
  }

  predicate UpTo(i: Item, x: real) {
    i.number.Some? && x * i.number.value.denominator as real <= i.number.value.numerator as real
  }

  predicate Spans(v: Value, x: real) {
    match v
    case Span(a, b) => From(a, x) && UpTo(b, x)
    case List(items) => |items| == 2 && From(items[0], x) && UpTo(items[1], x)
    case _ => false
  }

  /** Values up to the way their numbers print. */
  datatype Atom = Quantity(number: Option<real>) | Words(item: Item)

  datatype Meaning = Meaning(shape: nat, text: string, atoms: seq<Atom>)

  function AtomOf(i: Item): Atom {
    if i.numeric then Quantity(Magnitude(i)) else Words(i)
  }

  function AtomsOf(items: seq<Item>): seq<Atom> {
    seq(|items|, i requires 0 <= i < |items| => AtomOf(items[i]))
  }

  function MeaningOf(v: Value): Meaning {
    match v
    case Text(t) => Meaning(0, t, [])
    case Scalar(i) => Meaning(1, "", [AtomOf(i)])
    case List(items) => Meaning(2, "", AtomsOf(items))
    case KeyDict(items) => Meaning(3, "", AtomsOf(items))
    case Span(a, b) => Meaning(4, "", [AtomOf(a), AtomOf(b)])
  }

  ghost predicate Denotes(r: Region, p: Point) {
    match r.selectorType
    case PathPrefix => p.Path? && Leads(Show(r.value), p.path)
    case JsonPointer => p.Path? && Leads(Show(r.value), p.path)
    case RowKeys => p.Row? && Lists(r.value, p.key)
    case KeyRange => p.Coordinate? && Spans(r.value, p.x)
    case WholeResource => true
    case _ => p.Named? && MeaningOf(p.value) == MeaningOf(r.value)
  }

  /** Selectors whose meaning the algebra decides; it treats all others as everything. */
  ghost predicate Decided(r: Region) {
    && r.selectorType != AstNode
    && (r.selectorType == RowKeys ==> r.value.List? || r.value.KeyDict?)
    && (r.selectorType == KeyRange ==> Numbered(r.value))
  }

  /** A range with two numbers for its ends. */
  predicate Numbered(v: Value) {
    match v
    case Span(a, b) => a.number.Some? && b.number.Some?
    case List(items) => |items| == 2 && items[0].number.Some? && items[1].number.Some?
    case _ => false
  }

  /** A selector that denotes nothing: no keys, or a range that ends before it starts. */
  predicate Void(r: Region) {
    || (r.selectorType == RowKeys && ValueSet(r.value) == Some({}))
    || (r.selectorType == KeyRange && Bounds(r.value).Some? && Bounds(r.value).value.0 > Bounds(r.value).value.1)
  }

  // ---------- The algebra reads selectors as what they denote ----------

  /** Numbers compare as fractions do. */
  lemma ReadsOrder(a: Number, b: Number)
    ensures Reads(a) <= Reads(b) <==> a.numerator * b.denominator <= b.numerator * a.denominator
    ensures Reads(a) == Reads(b) <==> a.numerator * b.denominator == b.numerator * a.denominator
  {
    var d, e := a.denominator as real, b.denominator as real;
    ReadsTimes(a);
    ReadsTimes(b);
    Scaled(Reads(a), Reads(b), d * e);
    assert Reads(a) * (d * e) == Reads(a) * d * e == (a.numerator * b.denominator) as real;
    assert Reads(b) * (d * e) == Reads(b) * e * d == (b.numerator * a.denominator) as real;
  }

  lemma ReadsTimes(n: Number)
    ensures Reads(n) * n.denominator as real == n.numerator as real
  {}

  lemma Scaled(x: real, y: real, d: real)
    requires d > 0.0
    ensures x <= y <==> x * d <= y * d
    ensures x == y <==> x * d == y * d
  {}

  lemma FromIff(i: Item, x: real)
    ensures From(i, x) <==> i.number.Some? && Reads(i.number.value) <= x
    ensures UpTo(i, x) <==> i.number.Some? && x <= Reads(i.number.value)
  {
    if i.number.Some? {
      ReadsTimes(i.number.value);
      Scaled(Reads(i.number.value), x, i.number.value.denominator as real);
      Scaled(x, Reads(i.number.value), i.number.value.denominator as real);
    }
  }

  lemma SpansIff(v: Value, x: real)
    ensures Spans(v, x) <==> Bounds(v).Some? && Bounds(v).value.0 <= x <= Bounds(v).value.1
    ensures Numbered(v) <==> Bounds(v).Some?
  {
    match v
    case Span(a, b) =>
      FromIff(a, x);
      FromIff(b, x);
    case List(items) =>
      if |items| == 2 {
        FromIff(items[0], x);
        FromIff(items[1], x);
      }
    case _ =>
  }

  lemma {:induction false} StripSlashesTrims(s: string, t: string)
    ensures Trimmed(s, t) <==> t == StripSlashes(s)
  {
    if s != "" && s[|s| - 1] == '/' {
      var front := s[..|s| - 1];
      StripSlashesTrims(front, t);
      if Trimmed(s, t) {
        assert |t| < |s|;
        assert t <= front;
      }
    }
  }

  /** A path is under a prefix exactly when the prefix's parts are its first parts. */
  lemma UnderParts(prefix: string, path: string)
    ensures Under(prefix, path) <==> Split(prefix) <= Split(path)
  {
    if prefix + "/" <= path {
      var rest := path[|prefix| + 1..];
      assert path == prefix + "/" + rest;
      SplitBelow(prefix, rest);
    }
    if Split(prefix) <= Split(path) {
      SplitPrefix(prefix, path);
      if |prefix| < |path| { assert path[..|prefix| + 1] == prefix + "/"; }
    }
  }

  lemma LeadsIff(text: string, path: string)
    ensures Leads(text, path) <==> Under(StripSlashes(text), path)
  {
    StripSlashesTrims(text, StripSlashes(text));
    UnderParts(StripSlashes(text), path);
    forall t | Trimmed(text, t) ensures t == StripSlashes(text) { StripSlashesTrims(text, t); }
  }

  lemma SameAtoms(a: seq<Item>, b: seq<Item>)
    ensures AtomsOf(a) == AtomsOf(b) <==> SameItems(a, b)
  {
    if AtomsOf(a) == AtomsOf(b) {
      assert |AtomsOf(a)| == |AtomsOf(b)|;
      forall i | 0 <= i < |a| ensures SameItem(a[i], b[i]) { assert AtomsOf(a)[i] == AtomsOf(b)[i]; }
    }
  }

  /** The algebra takes two values for one exactly when they mean the same. */
  lemma SameValueIff(a: Value, b: Value)
    ensures SameValue(a, b) <==> MeaningOf(a) == MeaningOf(b)
  {
    match (a, b)
    case (List(x), List(y)) => SameAtoms(x, y);
    case (KeyDict(x), KeyDict(y)) => SameAtoms(x, y);
    case (Scalar(x), Scalar(y)) => assert MeaningOf(a).atoms[0] == AtomOf(x) && MeaningOf(b).atoms[0] == AtomOf(y);
    case (Span(x, y), Span(z, w)) =>
      assert MeaningOf(a).atoms == [AtomOf(x), AtomOf(y)] && MeaningOf(b).atoms == [AtomOf(z), AtomOf(w)];
      if MeaningOf(a) == MeaningOf(b) {
        assert MeaningOf(a).atoms[0] == MeaningOf(b).atoms[0] && MeaningOf(a).atoms[1] == MeaningOf(b).atoms[1];
      }
    case _ =>
  }

  lemma ListsIff(v: Value, key: string)
    ensures Lists(v, key) <==> ValueSet(v).Some? && key in ValueSet(v).value
  {}

  /** What the algebra computes with, selector type by selector type, is what the selector denotes. */
  lemma DenotesIff(r: Region, p: Point)
    ensures Denotes(r, p) <==>
              match r.selectorType
              case PathPrefix => p.Path? && Under(Prefix(r.value), p.path)
              case JsonPointer => p.Path? && Under(Prefix(r.value), p.path)
              case RowKeys => p.Row? && ValueSet(r.value).Some? && p.key in ValueSet(r.value).value
              case KeyRange =>
                p.Coordinate? && Bounds(r.value).Some? && Bounds(r.value).value.0 <= p.x <= Bounds(r.value).value.1
              case WholeResource => true
              case _ => p.Named? && SameValue(p.value, r.value)
  {
    match p
    case Path(path) => LeadsIff(Show(r.value), path);
    case Row(key) => ListsIff(r.value, key);
    case Coordinate(x) => SpansIff(r.value, x);
    case Named(v) => SameValueIff(v, r.value);
  }

  /** How structured values print. */
  lemma Printed(i: Item, j: Item)
    ensures Show(List([])) == "[]" && Show(List([i])) == "[" + i.shown + "]"
    ensures Show(List([i, j])) == "[" + i.shown + ", " + j.shown + "]"
    ensures Show(KeyDict([i, j])) == "{'keys': [" + i.shown + ", " + j.shown + "]}"
    ensures Show(Span(i, j)) == "{'start': " + i.shown + ", 'end': " + j.shown + "}"
    ensures Show(Scalar(i)) == i.shown
  {
    assert [i, j][1..] == [j];
    assert Join([i, j]) == i.shown + ", " + j.shown;
    assert "[" + (i.shown + ", " + j.shown) + "]" == "[" + i.shown + ", " + j.shown + "]";
    assert "{'keys': [" + (i.shown + ", " + j.shown) + "]}" == "{'keys': [" + i.shown + ", " + j.shown + "]}";
  }

  // ---------- Prefix facts ----------

  lemma UnderTransitive(a: string, b: string, c: string)
    requires Under(a, b) && Under(b, c)
    ensures Under(a, c)
  {
    if a + "/" <= b && b + "/" <= c {
      assert c[..|b|] == b && c[..|a| + 1] == b[..|a| + 1];
    }
  }

  lemma UnderComparable(a: string, b: string, p: string)
    requires Under(a, p) && Under(b, p)
    ensures Under(a, b) || Under(b, a)
  {
    if |a| < |b| {
      assert b == p[..|b|] && a + "/" == p[..|a| + 1];
      assert b[..|a| + 1] == p[..|a| + 1];
    } else if |b| < |a| {
      assert a == p[..|a|] && b + "/" == p[..|b| + 1];
      assert a[..|b| + 1] == p[..|b| + 1];
    } else {
      assert a == p[..|a|] && b == p[..|b|];
    }
  }

  // ---------- Overlap ----------

  lemma OverlapSymmetric(a: Region, b: Region)
    ensures Overlaps(a, b) <==> Overlaps(b, a)
  {
    if ValueSet(a.value).Some? && ValueSet(b.value).Some? {
      assert ValueSet(a.value).value * ValueSet(b.value).value == ValueSet(b.value).value * ValueSet(a.value).value;
    }
  }

  /** On one resource at one revision, same-type selectors overlap exactly when they denote a common point. */
  lemma OverlapExact(a: Region, b: Region)
    requires SameResource(a, b) && a.selectorType == b.selectorType && Decided(a) && Decided(b)
    ensures Overlaps(a, b) <==> exists p :: Denotes(a, p) && Denotes(b, p)
  {
    if Overlaps(a, b) {
      var p := CommonPoint(a, b);
      assert Denotes(a, p) && Denotes(b, p);
    }
    if exists p :: Denotes(a, p) && Denotes(b, p) {
      var p :| Denotes(a, p) && Denotes(b, p);
      DenotesIff(a, p);
      DenotesIff(b, p);
      if a.selectorType == PathPrefix || a.selectorType == JsonPointer {
        UnderComparable(Prefix(a.value), Prefix(b.value), p.path);
      } else if a.selectorType == RowKeys {
        assert p.key in ValueSet(a.value).value * ValueSet(b.value).value;
      }
    }
  }

  lemma CommonPoint(a: Region, b: Region) returns (p: Point)
    requires SameResource(a, b) && a.selectorType == b.selectorType && Decided(a) && Decided(b)
    requires Overlaps(a, b)
    ensures Denotes(a, p) && Denotes(b, p)
  {
    p := CommonReading(a, b);
    DenotesIff(a, p);
    DenotesIff(b, p);
  }

  lemma CommonReading(a: Region, b: Region) returns (p: Point)
    requires SameResource(a, b) && a.selectorType == b.selectorType && Decided(a) && Decided(b)
    requires Overlaps(a, b)
    ensures match a.selectorType
            case PathPrefix => p.Path? && Under(Prefix(a.value), p.path) && Under(Prefix(b.value), p.path)
            case JsonPointer => p.Path? && Under(Prefix(a.value), p.path) && Under(Prefix(b.value), p.path)
            case RowKeys => p.Row? && p.key in ValueSet(a.value).value && p.key in ValueSet(b.value).value
            case KeyRange =>
              && p.Coordinate? && Bounds(a.value).value.0 <= p.x <= Bounds(a.value).value.1
              && Bounds(b.value).value.0 <= p.x <= Bounds(b.value).value.1
            case WholeResource => true
            case AstNode => true
            case _ => p.Named? && SameValue(p.value, a.value) && SameValue(p.value, b.value)
  {
    SpansIff(a.value, 0.0);
    SpansIff(b.value, 0.0);
    match a.selectorType
    case PathPrefix =>
      p := Path(if Under(Prefix(a.value), Prefix(b.value)) then Prefix(b.value) else Prefix(a.value));
    case JsonPointer =>
      p := Path(if Under(Prefix(a.value), Prefix(b.value)) then Prefix(b.value) else Prefix(a.value));
    case RowKeys =>
      var k :| k in ValueSet(a.value).value * ValueSet(b.value).value;
      p := Row(k);
    case KeyRange => p := Coordinate(Max(Bounds(a.value).value.0, Bounds(b.value).value.0));
    case _ => p := Named(a.value);
  }

  // ---------- Coverage ----------

  lemma CoversReflexive(a: Region)
    ensures Covers(a, a)
  {}

  lemma CoversTransitive(a: Region, b: Region, c: Region)
    requires Covers(a, b) && Covers(b, c)
    ensures Covers(a, c)
  {
    if a.selectorType == b.selectorType == c.selectorType == PathPrefix {
      UnderTransitive(Prefix(a.value), Prefix(b.value), Prefix(c.value));
    }
  }

  /** Equal values print alike, unless a number in them is printed in two ways. */
  predicate SpelledAlike(a: Value, b: Value) {
    Show(a) == Show(b) && ValueSet(a) == ValueSet(b)
  }

  /** What a covered region denotes, the covering one denotes; for keys and pointers, when both are spelled alike. */
  lemma CoversDenotes(a: Region, r: Region, p: Point)
    requires Covers(a, r) && Denotes(r, p)
    requires a.selectorType == RowKeys || a.selectorType == JsonPointer ==> SpelledAlike(a.value, r.value)
    ensures Denotes(a, p)
  {
    DenotesIff(a, p);
    DenotesIff(r, p);
    if a.selectorType == PathPrefix {
      UnderTransitive(Prefix(a.value), Prefix(r.value), p.path);
    } else if a.selectorType == KeyRange && r.selectorType == KeyRange {
      SameBounds(a.value, r.value);
    } else if p.Named? {
      SameValueEquivalence(p.value, r.value, a.value);
      SameValueEquivalence(a.value, r.value, p.value);
    }
  }

  lemma SameBounds(a: Value, b: Value)
    requires SameValue(a, b)
    ensures Bounds(a) == Bounds(b)
  {}

  /** For path prefixes, and for whole resources, coverage is inclusion of what is denoted. */
  lemma CoversExact(a: Region, r: Region)
    requires SameResource(a, r)
    requires a.selectorType == WholeResource || (a.selectorType == PathPrefix && r.selectorType == PathPrefix)
    ensures Covers(a, r) <==> forall p :: Denotes(r, p) ==> Denotes(a, p)
  {
    if Covers(a, r) {
      forall p | Denotes(r, p) ensures Denotes(a, p) { CoversDenotes(a, r, p); }
    }
    if a.selectorType == PathPrefix && forall p :: Denotes(r, p) ==> Denotes(a, p) {
      DenotesIff(r, Path(Prefix(r.value)));
      DenotesIff(a, Path(Prefix(r.value)));
      assert Denotes(r, Path(Prefix(r.value)));
    }
  }

  /** Row keys of which no one is printed like one of the other's; in particular two empty key sets. */
  ghost predicate NoKeyInCommon(a: Value, b: Value) {
    (a.List? || a.KeyDict?) && (b.List? || b.KeyDict?) && forall k :: Lists(a, k) ==> !Lists(b, k)
  }

  /** A void selector is one the algebra decides and that denotes nothing. */
  lemma VoidIff(r: Region)
    ensures Void(r) <==> Decided(r) && forall p :: !Denotes(r, p)
  {
    match r.selectorType {
      case PathPrefix => DenotesIff(r, Path(Prefix(r.value)));
      case JsonPointer => DenotesIff(r, Path(Prefix(r.value)));
      case RowKeys =>
        if (r.value.List? || r.value.KeyDict?) && r.value.items != [] {
          DenotesIff(r, Row(r.value.items[0].shown));
          assert r.value.items[0].shown in ValueSet(r.value).value;
        } else if r.value.List? || r.value.KeyDict? {
          assert ValueSet(r.value).value == {};
        }
        forall p ensures Denotes(r, p) ==> !Void(r) { DenotesIff(r, p); }
      case KeyRange =>
        SpansIff(r.value, 0.0);
        if Bounds(r.value).Some? { DenotesIff(r, Coordinate(Bounds(r.value).value.0)); }
        forall p ensures Denotes(r, p) ==> !Void(r) { DenotesIff(r, p); }
      case _ => assert r.selectorType != AstNode ==> Denotes(r, Named(r.value));
    }
  }

  /**
     Two regions that cover a common region overlap, with three exceptions that are exact: a range that
     ends before it starts, equal row keys of which none is printed alike, and equal pointers that print
     apart. Equality reads 1, 1.0 and true as one and overlap compares how they print, so the second is
     not only the empty set.
   */
  lemma CoveredByBothOverlap(a: Region, b: Region, r: Region)
    requires Covers(a, r) && Covers(b, r)
    ensures Overlaps(a, b) <==>
              !(a.selectorType == b.selectorType == KeyRange && Void(a))
              && !(a.selectorType == b.selectorType == RowKeys && NoKeyInCommon(a.value, b.value))
              && !(a.selectorType == b.selectorType == JsonPointer && !PathsOverlap(a.value, b.value))
  {
    SameValueEquivalence(a.value, r.value, b.value);
    SameValueEquivalence(b.value, r.value, a.value);
    if a.selectorType == b.selectorType == PathPrefix {
      UnderComparable(Prefix(a.value), Prefix(b.value), Prefix(r.value));
    } else if a.selectorType == b.selectorType == KeyRange && SameValue(a.value, b.value) {
      SameBounds(a.value, b.value);
    } else if a.selectorType == b.selectorType == RowKeys && ValueSet(a.value).Some? && ValueSet(b.value).Some? {
      Apart(ValueSet(a.value).value, ValueSet(b.value).value);
      forall k
        ensures Lists(a.value, k) <==> k in ValueSet(a.value).value
        ensures Lists(b.value, k) <==> k in ValueSet(b.value).value
      {
        ListsIff(a.value, k);
        ListsIff(b.value, k);
      }
    }
  }

  lemma Apart(x: set<string>, y: set<string>)
    ensures x * y == {} <==> forall k :: k in x ==> k !in y
  {
    assert forall k :: k in x * y <==> k in x && k in y;
  }

  /** When keys are spelled alike, that leaves the empty selectors alone. */
  lemma SpelledAlikeOverlap(a: Region, b: Region, r: Region)
    requires Covers(a, r) && Covers(b, r) && SpelledAlike(a.value, b.value)
    ensures Overlaps(a, b) <==> !(a.selectorType == b.selectorType && Void(a))
  {
    CoveredByBothOverlap(a, b, r);
    if ValueSet(a.value).Some? && ValueSet(a.value).value != {} {
      var k :| k in ValueSet(a.value).value;
    }
  }

  /** The keys 1 and 1.0: both regions cover both, and they do not overlap. */
  lemma TwoSpellingsMiss(a: Region, b: Region)
    requires SameResource(a, b) && a.selectorType == b.selectorType == RowKeys
    requires a.value == List([Item("1", Some(Number(1, 1)), true)])
    requires b.value == List([Item("1.0", Some(Number(1, 1)), true)])
    ensures Covers(a, b) && Covers(b, a) && !Overlaps(a, b)
  {
    forall k | k in ValueSet(a.value).value ensures k !in ValueSet(b.value).value {
      assert |k| == 1;
    }
    assert a.value.items[0].shown in ValueSet(a.value).value;
  }

  // ---------- Outside the algebra ----------

  /** Regions of two resources never overlap; on one resource everything the algebra cannot decide does. */
  lemma OverlapOtherwise(a: Region, b: Region)
    ensures (a.kind, a.resourceId) != (b.kind, b.resourceId) ==> !Overlaps(a, b)
    ensures (a.kind, a.resourceId) == (b.kind, b.resourceId) ==>
              (a.baseRevision != b.baseRevision || a.selectorType != b.selectorType || !Decided(a) || !Decided(b) ==>
                 Overlaps(a, b))
  {
    SpansIff(a.value, 0.0);
    SpansIff(b.value, 0.0);
  }

  /** A region covers only regions of its own resource and revision; but for prefixes, only ones that mean the same. */
  lemma CoversOtherwise(a: Region, r: Region)
    ensures Covers(a, r) ==> (a.kind, a.resourceId, a.baseRevision) == (r.kind, r.resourceId, r.baseRevision)
    ensures (a.kind, a.resourceId, a.baseRevision) == (r.kind, r.resourceId, r.baseRevision)
            && a.selectorType != WholeResource && a.selectorType != PathPrefix ==>
              (Covers(a, r) <==> a.selectorType == r.selectorType && MeaningOf(a.value) == MeaningOf(r.value))
    ensures Covers(a, r) && a.selectorType == PathPrefix ==> r.selectorType == PathPrefix
  {
    SameValueIff(a.value, r.value);
  }

  /** Text is never equal to a number. */
  lemma TextIsNoNumber(i: Item, j: Item)
    requires i.numeric && !j.numeric
    ensures !SameValue(Scalar(i), Scalar(j))
  {}

  /** `overlaps` never relates a file lease to a directory lease, though the directory may hold the file. */
  lemma FileAndDirectoryNeverOverlap(a: Region, b: Region)
    requires a.kind == File && b.kind == Directory
    ensures !Overlaps(a, b)
  {}
}

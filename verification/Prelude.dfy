/** Shared result types and the insertion-ordered dictionary that the stores are made of. */
module Prelude {

  newtype byte = x: int | 0 <= x < 256
  type bytes = seq<byte>

  datatype Option<+T> = None | Some(value: T)

  datatype Result<+T, +E> = Ok(value: T) | Err(error: E)

  // ---------- Sequences ----------

  lemma Associative<T>(a: seq<T>, b: seq<T>, c: seq<T>)
    ensures a + (b + c) == (a + b) + c
  {}

  lemma TakeAll<T>(s: seq<T>)
    ensures s[..|s|] == s && s + [] == s && [] + s == s
  {}

  lemma TakeSnoc<T>(s: seq<T>, i: nat)
    requires i < |s|
    ensures s[..i + 1] == s[..i] + [s[i]] && s[..i + 1][..i] == s[..i]
  {}

  lemma FrontOfSnoc<T>(s: seq<T>, x: T)
    ensures (s + [x])[..|s|] == s && (s + [x])[|s|] == x
  {}

  lemma TakePrefix<T>(a: seq<T>, b: seq<T>)
    ensures (a + b)[..|a|] == a && (a + b)[|a|..] == b
  {}

  lemma ConsTail<T>(x: T, s: seq<T>)
    ensures ([x] + s)[0] == x && ([x] + s)[1..] == s
  {}

  lemma FourParts<T>(a: seq<T>, b: seq<T>, c: seq<T>, d: seq<T>)
    ensures a + b + c + d == a + ((b + c) + d)
  {}

  lemma FrontAndLast<T>(s: seq<T>)
    requires s != []
    ensures s == s[..|s| - 1] + [s[|s| - 1]]
  {}

  lemma TailHead<T>(s: seq<T>, i: nat)
    requires i < |s|
    ensures s[i..] != [] && s[i..][0] == s[i] && s[i..][1..] == s[i + 1..]
  {}

  // ---------- Dictionaries ----------

  /** A dictionary that remembers insertion order. Assigning to a present key keeps its place. */
  datatype Dict<V> = Dict(keys: seq<string>, vals: map<string, V>) {

    ghost predicate Valid() {
      && (forall i, j :: 0 <= i < j < |keys| ==> keys[i] != keys[j])
      && (forall k :: k in keys <==> k in vals)
    }

    function Put(k: string, v: V): Dict<V> {
      Dict(if k in vals then keys else keys + [k], vals[k := v])
    }
  }

  function Empty<V>(): Dict<V> {
    Dict([], map[])
  }

  lemma PutValid<V>(d: Dict<V>, k: string, v: V)
    requires d.Valid()
    ensures d.Put(k, v).Valid()
  {
    var e := d.Put(k, v);
    forall x ensures x in e.keys <==> x in e.vals {
      if k !in d.vals {
        assert x in e.keys <==> x in d.keys || x == k;
      }
    }
  }

  /** The first `i` entries, in dictionary order, have been replaced by their images under `f`. */
  ghost predicate HalfMapped<V>(before: Dict<V>, vals: map<string, V>, i: nat, f: V -> V) {
    && vals.Keys == before.vals.Keys
    && (forall j :: 0 <= j < |before.keys| && before.keys[j] in vals && before.keys[j] in before.vals ==>
          vals[before.keys[j]] == if j < i then f(before.vals[before.keys[j]]) else before.vals[before.keys[j]])
  }

  lemma HalfMappedStep<V>(before: Dict<V>, vals: map<string, V>, i: nat, f: V -> V)
    requires before.Valid() && i < |before.keys| && HalfMapped(before, vals, i, f)
    ensures before.keys[i] in vals && before.keys[i] in before.vals
              && vals[before.keys[i]] == before.vals[before.keys[i]]
    ensures HalfMapped(before, vals[before.keys[i] := f(before.vals[before.keys[i]])], i + 1, f)
    ensures f(before.vals[before.keys[i]]) == before.vals[before.keys[i]] ==> HalfMapped(before, vals, i + 1, f)
  {}

  lemma AllMapped<V>(before: Dict<V>, vals: map<string, V>, f: V -> V)
    requires before.Valid() && HalfMapped(before, vals, |before.keys|, f)
    ensures vals.Keys == before.vals.Keys && forall id :: id in vals ==> vals[id] == f(before.vals[id])
  {
    forall id | id in vals ensures vals[id] == f(before.vals[id]) {
      var j :| 0 <= j < |before.keys| && before.keys[j] == id;
    }
  }
}

/**
 That the line syntax the journal assumes exists: any values that can be written as numbers, one
 behind the other, have one. The values the store journals can (module EventText).
 */
module Encoding {
  import opened Prelude
  import opened Journal

  type Code = seq<nat>

  ghost predicate Injective<V(!new)>(code: V -> Code) {
    forall v, w :: code(v) == code(w) ==> v == w
  }

  // ---------- From numbers to a line ----------

  const COMMA: byte := 44
  const STROKE: byte := 120
  const OPEN: byte := 123
  const CLOSE: byte := 125

  function Unary(n: nat, rest: bytes): bytes {
    if n == 0 then [COMMA] + rest else [STROKE] + Unary(n - 1, rest)
  }

  function Digits(c: Code, rest: bytes): bytes {
    if c == [] then [CLOSE] + rest else Unary(c[0], Digits(c[1..], rest))
  }

  function Body(c: Code): bytes {
    [OPEN] + Digits(c, [])
  }

  lemma {:induction false} UnaryCancel(n: nat, m: nat, s: bytes, t: bytes)
    requires Unary(n, s) == Unary(m, t)
    ensures n == m && s == t
  {
    assert Unary(n, s)[0] == Unary(m, t)[0];
    assert Unary(n, s)[1..] == Unary(m, t)[1..];
    if n == 0 {
      assert Unary(n, s)[1..] == s && Unary(m, t)[1..] == t;
    } else {
      assert Unary(n, s)[1..] == Unary(n - 1, s) && Unary(m, t)[1..] == Unary(m - 1, t);
      UnaryCancel(n - 1, m - 1, s, t);
    }
  }

  /** What follows the numbers can be told from them. */
  lemma {:induction false} DigitsCancel(c: Code, d: Code, s: bytes, t: bytes)
    requires Digits(c, s) == Digits(d, t)
    ensures c == d && s == t
  {
    assert Digits(c, s)[0] == Digits(d, t)[0];
    if c == [] {
      assert Digits(c, s)[1..] == s && Digits(d, t)[1..] == t;
    } else {
      UnaryCancel(c[0], d[0], Digits(c[1..], s), Digits(d[1..], t));
      DigitsCancel(c[1..], d[1..], s, t);
      assert c == [c[0]] + c[1..] && d == [d[0]] + d[1..];
    }
  }

  lemma {:induction false} UnaryAppend(n: nat, rest: bytes, more: bytes)
    ensures Unary(n, rest) + more == Unary(n, rest + more)
  {
    if n == 0 {
      Associative([COMMA], rest, more);
    } else {
      UnaryAppend(n - 1, rest, more);
      Associative([STROKE], Unary(n - 1, rest), more);
    }
  }

  lemma {:induction false} DigitsAppend(c: Code, rest: bytes, more: bytes)
    ensures Digits(c, rest) + more == Digits(c, rest + more)
  {
    if c == [] {
      Associative([CLOSE], rest, more);
    } else {
      UnaryAppend(c[0], Digits(c[1..], rest), more);
      DigitsAppend(c[1..], rest, more);
    }
  }

  lemma BodyCancel(c: Code, d: Code, s: bytes, t: bytes)
    requires Body(c) + s == Body(d) + t
    ensures c == d && s == t
  {
    BodyTail(c, s);
    BodyTail(d, t);
    DigitsCancel(c, d, s, t);
  }

  lemma BodyTail(c: Code, s: bytes)
    ensures (Body(c) + s)[1..] == Digits(c, s)
  {
    Associative([OPEN], Digits(c, []), s);
    ConsTail(OPEN, Digits(c, []) + s);
    DigitsAppend(c, [], s);
    TakeAll(s);
  }

  predicate Plain(s: bytes) {
    forall i :: 0 <= i < |s| ==> s[i] != LF && s[i] != CR
  }

  lemma {:induction false} UnaryPlain(n: nat, rest: bytes)
    requires Plain(rest)
    ensures Plain(Unary(n, rest))
  {
    if n > 0 { UnaryPlain(n - 1, rest); }
  }

  lemma {:induction false} DigitsPlain(c: Code)
    ensures Plain(Digits(c, []))
  {
    if c != [] {
      DigitsPlain(c[1..]);
      UnaryPlain(c[0], Digits(c[1..], []));
    }
  }

  // ---------- The syntax of a code ----------

  predicate Spells<V>(code: V -> Code, v: V, s: bytes) {
    var body := Body(code(v));
    body <= s && SyntaxBlank(s[|body|..])
  }

  ghost function Read<V(!new)>(code: V -> Code, s: bytes): Option<V> {
    if exists v :: Spells(code, v, s) then
      var v :| Spells(code, v, s);
      Some(v)
    else None
  }

  ghost function SyntaxOf<V(!new)>(code: V -> Code): Syntax<V> {
    Syntax((v: V) => Body(code(v)), (s: bytes) => Read(code, s))
  }

  lemma ReadBody<V(!new)>(code: V -> Code, v: V, t: bytes)
    requires Injective(code)
    ensures SyntaxBlank(t) ==> Read(code, Body(code(v)) + t) == Some(v)
    ensures !SyntaxBlank(t) ==> Read(code, Body(code(v)) + t) == None
  {
    var s := Body(code(v)) + t;
    TakePrefix(Body(code(v)), t);
    forall w | Spells(code, w, s) ensures w == v && SyntaxBlank(t) {
      BodyCancel(code(w), code(v), s[|Body(code(w))|..], t);
    }
    if SyntaxBlank(t) { assert Spells(code, v, s); }
  }

  lemma ReadCut<V(!new)>(code: V -> Code, v: V, k: nat)
    requires k < |Body(code(v))|
    ensures Read(code, Body(code(v))[..k]) == None
  {
    var body := Body(code(v));
    forall w ensures !Spells(code, w, body[..k]) {
      if Spells(code, w, body[..k]) {
        var t := body[..k][|Body(code(w))|..];
        assert body[..k] == Body(code(w)) + t;
        assert Body(code(w)) + (t + body[k..]) == body + [];
        BodyCancel(code(w), code(v), t + body[k..], []);
      }
    }
  }

  /** Whatever can be coded without ambiguity has a line syntax that meets everything the journal asks of one. */
  lemma SyntaxExists<V(!new)>(code: V -> Code)
    requires Injective(code)
    ensures IsSyntax(SyntaxOf(code))
  {
    var s := SyntaxOf(code);
    forall v: V ensures |s.encode(v)| > 0 && !IsBlankByte(s.encode(v)[0]) && Plain(s.encode(v)) {
      DigitsPlain(code(v));
    }
    forall v: V, t | SyntaxBlank(t) ensures s.decode(s.encode(v) + t) == Some(v) { ReadBody(code, v, t); }
    forall v: V, t | !Blank(t) ensures s.decode(s.encode(v) + t) == None {
      ReadBody(code, v, t);
      assert SyntaxBlank(t) ==> Blank(t);
    }
    forall v: V, k | 0 <= k < |s.encode(v)| ensures s.decode(s.encode(v)[..k]) == None { ReadCut(code, v, k); }
  }

  // ---------- Writers: a value in front of what follows it ----------

  type Writer<!V> = (V, Code) -> Code

  /** The value and what follows it can be told from what is written. */
  ghost predicate Exact<V(!new)>(w: Writer<V>) {
    forall a, b, s, t :: w(a, s) == w(b, t) ==> a == b && s == t
  }

  function Cons(n: nat, rest: Code): Code {
    [n] + rest
  }

  lemma ConsCancel(n: nat, m: nat, s: Code, t: Code)
    requires Cons(n, s) == Cons(m, t)
    ensures n == m && s == t
  {
    ConsTail(n, s);
    ConsTail(m, t);
  }

  function IntCode(n: int, rest: Code): Code {
    Cons(if n >= 0 then 2 * n else -2 * n - 1, rest)
  }

  function BoolCode(b: bool, rest: Code): Code {
    Cons(if b then 1 else 0, rest)
  }

  function OptionCode<V>(w: Writer<V>, o: Option<V>, rest: Code): Code {
    match o
    case None => Cons(0, rest)
    case Some(v) => Cons(1, w(v, rest))
  }

  function SeqCode<V>(w: Writer<V>, xs: seq<V>, rest: Code): Code {
    if xs == [] then Cons(0, rest) else Cons(1, w(xs[0], SeqCode(w, xs[1..], rest)))
  }

  function CharCode(c: char, rest: Code): Code {
    Cons(c as nat, rest)
  }

  function StringCode(s: string, rest: Code): Code {
    SeqCode(CharCode, s, rest)
  }

  lemma IntCancel(n: int, m: int, s: Code, t: Code)
    requires IntCode(n, s) == IntCode(m, t)
    ensures n == m && s == t
  {
    ConsCancel(if n >= 0 then 2 * n else -2 * n - 1, if m >= 0 then 2 * m else -2 * m - 1, s, t);
  }

  lemma BoolCancel(a: bool, b: bool, s: Code, t: Code)
    requires BoolCode(a, s) == BoolCode(b, t)
    ensures a == b && s == t
  {
    ConsCancel(if a then 1 else 0, if b then 1 else 0, s, t);
  }

  lemma OptionCancel<V(!new)>(w: Writer<V>, a: Option<V>, b: Option<V>, s: Code, t: Code)
    requires Exact(w) && OptionCode(w, a, s) == OptionCode(w, b, t)
    ensures a == b && s == t
  {
    ConsCancel(if a.Some? then 1 else 0, if b.Some? then 1 else 0,
               if a.Some? then w(a.value, s) else s, if b.Some? then w(b.value, t) else t);
  }

  lemma {:induction false} SeqCancel<V(!new)>(w: Writer<V>, a: seq<V>, b: seq<V>, s: Code, t: Code)
    requires Exact(w) && SeqCode(w, a, s) == SeqCode(w, b, t)
    ensures a == b && s == t
  {
    var more := if a != [] then w(a[0], SeqCode(w, a[1..], s)) else s;
    var rest := if b != [] then w(b[0], SeqCode(w, b[1..], t)) else t;
    ConsCancel(if a != [] then 1 else 0, if b != [] then 1 else 0, more, rest);
    if a != [] {
      SeqCancel(w, a[1..], b[1..], s, t);
      assert a == [a[0]] + a[1..] && b == [b[0]] + b[1..];
    }
  }

  lemma CharExact()
    ensures Exact(CharCode)
  {
    forall a, b, s, t | CharCode(a, s) == CharCode(b, t) ensures a == b && s == t {
      ConsCancel(a as nat, b as nat, s, t);
    }
  }

  lemma StringCancel(a: string, b: string, s: Code, t: Code)
    requires StringCode(a, s) == StringCode(b, t)
    ensures a == b && s == t
  {
    CharExact();
    SeqCancel(CharCode, a, b, s, t);
  }

  lemma StringExact()
    ensures Exact(StringCode)
  {
    forall a, b, s, t | StringCode(a, s) == StringCode(b, t) ensures a == b && s == t { StringCancel(a, b, s, t); }
  }

  lemma IntExact()
    ensures Exact(IntCode)
  {
    forall a, b, s, t | IntCode(a, s) == IntCode(b, t) ensures a == b && s == t { IntCancel(a, b, s, t); }
  }
}

/** The content-derived identity of a function rule: the text whose checksum names its trampolines. */
module Identity {
  import opened Basics
  import Decimal

  datatype Signature = Signature(args: seq<string>, returns_: seq<string>)

  datatype FuncRule = FuncRule(
    target: string, version: string, func: string, recv: string, before: string, after: string, path: string,
    result: string, lastResult: string, param: string, signature: Option<Signature>,
      signatureContains: Option<Signature>)

  // ---------------------------------------------------------------- the key

  function Enc(s: string): string { Decimal.Itoa(|s|) + ":" + s }

  function EncAll(xs: seq<string>): (r: seq<string>)
    ensures |r| == |xs|
  {
    seq(|xs|, i requires 0 <= i < |xs| => Enc(xs[i]))
  }

  function EncList(xs: seq<string>): string { Decimal.Itoa(|xs|) + ";" + Flatten(EncAll(xs)) }

  function EncSig(s: Option<Signature>): string {
    match s
    case None => "-"
    case Some(sig) => "+" + (EncList(sig.args) + EncList(sig.returns_))
  }

  function Fields(r: FuncRule): seq<string> {
    [r.target, r.version, r.func, r.recv, r.before, r.after, r.path, r.result, r.lastResult, r.param]
  }

  function Key(r: FuncRule): string {
    Flatten(EncAll(Fields(r))) + (EncSig(r.signature) + EncSig(r.signatureContains))
  }

  // ---------------------------------------------------------------- nothing is lost

  function Digits(s: string): nat {
    if s == "" || !Decimal.IsDigit(s[0]) then 0 else 1 + Digits(s[1..])
  }

  lemma {:induction false} DigitsOf(m: string, rest: string)
    requires (forall c :: c in m ==> Decimal.IsDigit(c)) && (rest == "" || !Decimal.IsDigit(rest[0]))
    ensures Digits(m + rest) == |m|
    decreases |m|
  {
    if m == "" {
      assert m + rest == rest;
    } else {
      assert (m + rest)[1..] == m[1..] + rest;
      DigitsOf(m[1..], rest);
    }
  }

  /** A numeral ends at the first character that is no digit. */
  lemma {:induction false} NumeralEnds(m: string, n: string, sep: char, x: string, y: string)
    requires Decimal.IsNumeral(m) && Decimal.IsNumeral(n) && !Decimal.IsDigit(sep)
    requires m + ([sep] + x) == n + ([sep] + y)
    ensures m == n && x == y
  {
    var s, t := m + ([sep] + x), n + ([sep] + y);
    DigitsOf(m, [sep] + x);
    DigitsOf(n, [sep] + y);
    assert m == s[..|m|] && n == t[..|n|];
    assert x == s[|m| + 1..] && y == t[|n| + 1..];
  }

  /** Equal texts that start with a length-prefixed string start with the same string. */
  lemma {:induction false} EncPrefix(a: string, b: string, x: string, y: string)
    requires Enc(a) + x == Enc(b) + y
    ensures a == b && x == y
  {
    var m, n := Decimal.Itoa(|a|), Decimal.Itoa(|b|);
    assert Enc(a) + x == m + ([':'] + (a + x)) && Enc(b) + y == n + ([':'] + (b + y));
    NumeralEnds(m, n, ':', a + x, b + y);
    Decimal.Injective(|a|, |b|);
    assert a == (a + x)[..|a|] && b == (b + y)[..|b|];
    assert x == (a + x)[|a|..] && y == (b + y)[|b|..];
  }

  lemma {:induction false} ConcatPrefix(a: seq<string>, b: seq<string>, x: string, y: string)
    requires |a| == |b| && Flatten(EncAll(a)) + x == Flatten(EncAll(b)) + y
    ensures a == b && x == y
    decreases |a|
  {
    if a != [] {
      assert EncAll(a)[1..] == EncAll(a[1..]) && EncAll(b)[1..] == EncAll(b[1..]);
      var u, v := Flatten(EncAll(a[1..])), Flatten(EncAll(b[1..]));
      assert Flatten(EncAll(a)) + x == Enc(a[0]) + (u + x);
      assert Flatten(EncAll(b)) + y == Enc(b[0]) + (v + y);
      EncPrefix(a[0], b[0], u + x, v + y);
      ConcatPrefix(a[1..], b[1..], x, y);
      assert a == [a[0]] + a[1..] && b == [b[0]] + b[1..];
    } else {
      assert Flatten(EncAll(a)) + x == x && Flatten(EncAll(b)) + y == y;
    }
  }

  lemma {:induction false} ListPrefix(a: seq<string>, b: seq<string>, x: string, y: string)
    requires EncList(a) + x == EncList(b) + y
    ensures a == b && x == y
  {
    var m, n := Decimal.Itoa(|a|), Decimal.Itoa(|b|);
    var u, v := Flatten(EncAll(a)), Flatten(EncAll(b));
    assert EncList(a) + x == m + ([';'] + (u + x)) && EncList(b) + y == n + ([';'] + (v + y));
    NumeralEnds(m, n, ';', u + x, v + y);
    Decimal.Injective(|a|, |b|);
    ConcatPrefix(a, b, x, y);
  }

  lemma {:induction false} PresentPrefix(p: Signature, q: Signature, x: string, y: string)
    requires EncSig(Some(p)) + x == EncSig(Some(q)) + y
    ensures p == q && x == y
  {
    var s, t := EncSig(Some(p)) + x, EncSig(Some(q)) + y;
    var u, v := EncList(p.returns_) + x, EncList(q.returns_) + y;
    TagAndTwo("+", EncList(p.args), EncList(p.returns_), x);
    TagAndTwo("+", EncList(q.args), EncList(q.returns_), y);
    ListPrefix(p.args, q.args, u, v);
    ListPrefix(p.returns_, q.returns_, x, y);
  }

  lemma {:induction false} TagAndTwo(tag: string, a: string, b: string, x: string)
    requires |tag| == 1
    ensures (tag + (a + b) + x)[1..] == a + (b + x)
  {
    assert tag + (a + b) + x == tag + (a + (b + x));
  }

  /** An absent signature is not an empty one. */
  lemma {:induction false} SigPrefix(a: Option<Signature>, b: Option<Signature>, x: string, y: string)
    requires EncSig(a) + x == EncSig(b) + y
    ensures a == b && x == y
  {
    assert (EncSig(a) + x)[0] == (if a.Some? then '+' else '-') && (EncSig(b) + y)[0] == if b.Some? then '+' else '-';
    if a.Some? && b.Some? {
      PresentPrefix(a.value, b.value, x, y);
    } else {
      assert (EncSig(a) + x)[1..] == x && (EncSig(b) + y)[1..] == y;
    }
  }

  /** Two rules have the same key only if they agree in every field. */
  lemma {:induction false} KeyIsInjective(r: FuncRule, s: FuncRule)
    requires Key(r) == Key(s)
    ensures r == s
  {
    var f, g := Fields(r), Fields(s);
    var x, y := EncSig(r.signature) + EncSig(r.signatureContains), EncSig(s.signature) + EncSig(s.signatureContains);
    ConcatPrefix(f, g, x, y);
    assert f[0] == g[0] && f[1] == g[1] && f[2] == g[2] && f[3] == g[3] && f[4] == g[4];
    assert f[5] == g[5] && f[6] == g[6] && f[7] == g[7] && f[8] == g[8] && f[9] == g[9];
    SigPrefix(r.signature, s.signature, EncSig(r.signatureContains), EncSig(s.signatureContains));
    assert EncSig(r.signatureContains) + "" == EncSig(s.signatureContains) + "";
    SigPrefix(r.signatureContains, s.signatureContains, "", "");
  }
}

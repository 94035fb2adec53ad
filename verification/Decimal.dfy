/** Decimal numerals, as `%d` and `strconv.Itoa` print them. */
module Decimal {

  predicate IsDigit(c: char) { '0' <= c <= '9' }

  predicate IsNumeral(s: string) { s != [] && forall c :: c in s ==> IsDigit(c) }

  function Digit(d: nat): (c: char)
    requires d < 10
    ensures IsDigit(c)
  {
    '0' + d as char
  }

  function Itoa(n: nat): (s: string)
    ensures IsNumeral(s)
  {
    if n < 10 then [Digit(n)] else Itoa(n / 10) + [Digit(n % 10)]
  }

  function Atoi(s: string): nat
    requires forall c :: c in s ==> IsDigit(c)
  {
    if s == [] then 0
    else
      var last := s[|s| - 1];
      assert last in s && IsDigit(last);
      10 * Atoi(s[..|s| - 1]) + (last as int - '0' as int)
  }

  lemma {:induction false} RoundTrip(n: nat)
    ensures Atoi(Itoa(n)) == n
  {
    var s := Itoa(n);
    if n < 10 {
      assert s[..|s| - 1] == [];
    } else {
      assert s[..|s| - 1] == Itoa(n / 10);
      RoundTrip(n / 10);
    }
  }

  lemma Injective(m: nat, n: nat)
    requires Itoa(m) == Itoa(n)
    ensures m == n
  {
    RoundTrip(m);
    RoundTrip(n);
  }
}

/** The decimal text that fmt.Sprintf("%d", …) writes for a clock reading. */
module Decimal {

  function Digit(d: nat): char
    requires d < 10
  {
    ('0' as int + d) as char
  }

  function Digits(n: nat): (s: string)
    ensures s != []
  {
    if n < 10 then [Digit(n)] else Digits(n / 10) + [Digit(n % 10)]
  }

  function Show(n: int): string {
    if n < 0 then "-" + Digits(-n) else Digits(n)
  }

  /** The number a string of digits stands for: the reference that Digits is inverted by. */
  function Value(s: string): int {
    if s == [] then 0 else 10 * Value(s[..|s| - 1]) + (s[|s| - 1] as int - '0' as int)
  }

  lemma {:induction false} ValueOfDigits(n: nat)
    ensures Value(Digits(n)) == n
    ensures forall i :: 0 <= i < |Digits(n)| ==> '0' <= Digits(n)[i] <= '9'
  {
    if n >= 10 {
      ValueOfDigits(n / 10);
      assert Digits(n)[..|Digits(n)| - 1] == Digits(n / 10);
    } else {
      assert Digits(n)[..0] == [];
    }
  }

  lemma ShowHasNoColon(n: int)
    ensures ':' !in Show(n)
  {
    ValueOfDigits(if n < 0 then -n else n);
  }

  lemma ShowInjective(a: int, b: int)
    requires Show(a) == Show(b)
    ensures a == b
  {
    ValueOfDigits(if a < 0 then -a else a);
    ValueOfDigits(if b < 0 then -b else b);
    assert Show(a)[0] == '-' <==> a < 0;
    assert Show(b)[0] == '-' <==> b < 0;
    if a < 0 {
      assert Show(a)[1..] == Digits(-a) && Show(b)[1..] == Digits(-b);
    }
  }

  /** What follows the last ':' of a string is unique, so a stamped key splits one way only. */
  lemma {:induction false} StampSplits(p: string, q: string, a: int, b: int)
    requires p + ":" + Show(a) == q + ":" + Show(b)
    ensures p == q && a == b
  {
    var x, y := Show(a), Show(b);
    ShowHasNoColon(a);
    ShowHasNoColon(b);
    var s := p + ":" + x;
    assert s[|p|] == ':' && s[|q|] == ':';
    assert forall i :: |p| < i < |s| ==> s[i] == x[i - |p| - 1];
    assert forall i :: |q| < i < |s| ==> s[i] == y[i - |q| - 1];
    assert p == s[..|p|] == q;
    assert x == s[|p| + 1..] == y;
    ShowInjective(a, b);
  }
}

/** Decimal printing and parsing as sprintf("%d") and atoi do it. */
module Decimal {

  function Digit(d: nat): char
    requires d < 10
  {
    '0' + d as char
  }

  predicate IsDigit(c: char)
  {
    '0' <= c <= '9'
  }

  function DigitValue(c: char): nat
    requires IsDigit(c)
  {
    c as int - '0' as int
  }

  function Digits(n: nat): (s: string)
    ensures s != [] && forall k :: 0 <= k < |s| ==> IsDigit(s[k])
  {
    if n < 10 then [Digit(n)] else Digits(n / 10) + [Digit(n % 10)]
  }

  /** sprintf with "%d". */
  function Print(n: int): (s: string)
    ensures s != []
  {
    if n < 0 then "-" + Digits(-n) else Digits(n)
  }

  predicate IsSpace(c: char)
  {
    c == ' ' || '\t' <= c <= '\r'
  }

  /** The value of the digits at the front of s, behind digits worth acc. */
  function ParseDigits(s: string, acc: nat): nat
  {
    if s == [] || !IsDigit(s[0]) then acc else ParseDigits(s[1..], acc * 10 + DigitValue(s[0]))
  }

  /** atoi: leading space, a sign, digits; whatever follows is ignored. */
  function Parse(s: string): int
  {
    if s == [] then 0
    else if IsSpace(s[0]) then Parse(s[1..])
    else if s[0] == '-' then 0 - ParseDigits(s[1..], 0)
    else if s[0] == '+' then ParseDigits(s[1..], 0)
    else ParseDigits(s, 0)
  }

  /** Parsing takes in all printed digits and goes on with what is behind them. */
  lemma {:induction false} ParseThrough(n: nat, rest: string)
    ensures ParseDigits(Digits(n) + rest, 0) == ParseDigits(rest, n)
  {
    if n < 10 {
      assert (Digits(n) + rest)[1..] == rest;
    } else {
      ParseThrough(n / 10, [Digit(n % 10)] + rest);
      assert Digits(n) + rest == Digits(n / 10) + ([Digit(n % 10)] + rest);
      assert ([Digit(n % 10)] + rest)[1..] == rest;
    }
  }

  /** What was printed parses back, for every integer. */
  lemma ParsePrint(n: int)
    ensures Parse(Print(n)) == n
  {
    var m: nat := if n < 0 then -n else n;
    ParseThrough(m, []);
    assert Digits(m) + [] == Digits(m);
    assert IsDigit(Digits(m)[0]);
    if n < 0 {
      assert Print(n)[1..] == Digits(m);
    }
  }
}

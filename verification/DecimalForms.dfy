/** Which texts printing gives back after parsing: the decimal numbers in their usual form. */
module DecimalForms {
  import opened Decimal

  predicate AllDigits(s: string)
  {
    forall k :: 0 <= k < |s| ==> IsDigit(s[k])
  }

  /** Digits without a leading zero, a minus sign in front of other numbers than 0. */
  predicate Canonical(s: string)
  {
    if s != [] && s[0] == '-' then Positive(s[1..]) else s == "0" || Positive(s)
  }

  predicate Positive(s: string)
  {
    s != [] && AllDigits(s) && s[0] != '0'
  }

  /** A last digit more is ten times as much and that digit. */
  lemma {:induction false} ParseSnoc(s: string, c: char, acc: nat)
    requires AllDigits(s) && IsDigit(c)
    ensures ParseDigits(s + [c], acc) == ParseDigits(s, acc) * 10 + DigitValue(c)
  {
    if s == [] {
      assert s + [c] == [c] && [c][1..] == [];
    } else {
      assert (s + [c])[1..] == s[1..] + [c];
      ParseSnoc(s[1..], c, acc * 10 + DigitValue(s[0]));
    }
  }

  lemma {:induction false} PositiveParses(s: string)
    requires Positive(s)
    ensures ParseDigits(s, 0) > 0 && Digits(ParseDigits(s, 0)) == s
  {
    var most, c := s[..|s| - 1], s[|s| - 1];
    assert s == most + [c];
    ParseSnoc(most, c, 0);
    if most == [] {
      assert ParseDigits(most, 0) == 0;
    } else {
      PositiveParses(most);
      var n := ParseDigits(most, 0);
      assert (n * 10 + DigitValue(c)) / 10 == n;
    }
  }

  lemma {:induction false} DigitsPositive(n: nat)
    requires n > 0
    ensures Positive(Digits(n))
  {
    if n >= 10 {
      DigitsPositive(n / 10);
    }
  }

  lemma PrintIsCanonical(n: int)
    ensures Canonical(Print(n))
  {
    if n != 0 {
      DigitsPositive(if n < 0 then -n else n);
      assert n < 0 ==> Print(n)[1..] == Digits(-n);
    }
  }

  /** A text is printed again as it was parsed if and only if it is a number in its usual form. */
  lemma PrintParse(s: string)
    ensures Print(Parse(s)) == s <==> Canonical(s)
  {
    PrintIsCanonical(Parse(s));
    if Canonical(s) {
      if s[0] == '-' {
        PositiveParses(s[1..]);
      } else if s != "0" {
        PositiveParses(s);
      } else {
        assert s[1..] == [];
      }
    }
  }
}

/** Decimal text as Python's `str()` writes it and `int()` reads it. */
module Decimal {
  import opened Wrappers

  predicate IsDigit(c: char) {
    '0' <= c <= '9'
  }

  predicate AllDigits(s: string) {
    forall i | 0 <= i < |s| :: IsDigit(s[i])
  }

  function DigitValue(c: char): (d: nat)
    requires IsDigit(c)
    ensures d < 10
  {
    c as int - '0' as int
  }

  function DigitChar(d: nat): (c: char)
    requires d < 10
    ensures IsDigit(c) && DigitValue(c) == d
  {
    ('0' as int + d) as char
  }

  /** `str(n)` for a non-negative integer: digits, most significant first, no leading zero. */
  function NatToString(n: nat): (s: string)
    ensures 0 < |s| && AllDigits(s)
    ensures s[0] == '0' ==> s == "0"
    decreases n
  {
    if n < 10 then [DigitChar(n)] else NatToString(n / 10) + [DigitChar(n % 10)]
  }

  /** The number a non-empty run of decimal digits denotes. */
  function DigitsValue(s: string): nat
    requires AllDigits(s)
    decreases |s|
  {
    if s == [] then 0 else DigitsValue(s[..|s| - 1]) * 10 + DigitValue(s[|s| - 1])
  }

  /** Reading back what `str()` wrote gives the original number. */
  lemma {:induction false} DigitsValueOfNatToString(n: nat)
    ensures DigitsValue(NatToString(n)) == n
    decreases n
  {
    var s := NatToString(n);
    if n >= 10 {
      DigitsValueOfNatToString(n / 10);
      assert s[..|s| - 1] == NatToString(n / 10);
    }
  }

  /** Distinct numbers have distinct decimal renderings. */
  lemma NatToStringInjective(a: nat, b: nat)
    requires a != b
    ensures NatToString(a) != NatToString(b)
  {
    DigitsValueOfNatToString(a);
    DigitsValueOfNatToString(b);
  }

  /** Python's `int(s)` on a string: an optional `+` or `-` followed by at least one
      ASCII digit, with no blanks; anything else is a `ValueError`, modelled as `None`.
      Python 2 also skips blanks around the number and after the sign; those are not modelled. */
  function ParseInt(s: string): (r: Option<int>)
    ensures r.Some? <==> (0 < |s| && AllDigits(s)) || (1 < |s| && (s[0] == '+' || s[0] == '-') && AllDigits(s[1..]))
    ensures r.Some? && r.value < 0 ==> s[0] == '-'
  {
    if 0 < |s| && (s[0] == '+' || s[0] == '-') then
      if 1 < |s| && AllDigits(s[1..]) then
        var magnitude: int := DigitsValue(s[1..]);
        Some(if s[0] == '-' then -magnitude else magnitude)
      else None
    else if 0 < |s| && AllDigits(s) then Some(DigitsValue(s))
    else None
  }

  /** `int(str(n)) == n` for every non-negative `n`. */
  lemma ParseIntOfNatToString(n: nat)
    ensures ParseInt(NatToString(n)) == Some(n)
  {
    DigitsValueOfNatToString(n);
  }

  /** `int("-" + str(n)) == -n`: a leading minus negates the magnitude. */
  lemma ParseIntOfNegated(n: nat)
    ensures ParseInt("-" + NatToString(n)) == Some(-(n as int))
  {
    var s := "-" + NatToString(n);
    assert s[1..] == NatToString(n);
    DigitsValueOfNatToString(n);
  }

  /** `int("+" + str(n)) == n`: a leading plus is accepted and changes nothing. */
  lemma ParseIntOfPlusSigned(n: nat)
    ensures ParseInt("+" + NatToString(n)) == Some(n)
  {
    var s := "+" + NatToString(n);
    assert s[1..] == NatToString(n);
    DigitsValueOfNatToString(n);
  }

  /** A leading zero does not change the number a digit run denotes, so `int("02") == 2`. */
  lemma {:induction false} DigitsValueLeadingZero(s: string)
    requires AllDigits(s)
    ensures AllDigits("0" + s)
    ensures DigitsValue("0" + s) == DigitsValue(s)
    decreases |s|
  {
    var z := "0" + s;
    assert AllDigits(z) by {
      forall i | 0 <= i < |z| ensures IsDigit(z[i]) {
        if i > 0 { assert z[i] == s[i - 1]; }
      }
    }
    if s != [] {
      var p := s[..|s| - 1];
      assert AllDigits(p) by {
        forall i | 0 <= i < |p| ensures IsDigit(p[i]) { assert p[i] == s[i]; }
      }
      DigitsValueLeadingZero(p);
      assert z[..|z| - 1] == "0" + p;
      assert z[|z| - 1] == s[|s| - 1];
    }
  }

  /** `int()` on a digit run with leading zeros: `int("0" + s) == int(s)`. */
  lemma ParseIntLeadingZero(s: string)
    requires 0 < |s| && AllDigits(s)
    ensures ParseInt("0" + s) == ParseInt(s)
  {
    DigitsValueLeadingZero(s);
  }

  /** `int("+" + s) == int(s)` for every non-empty digit run: a leading plus changes nothing. */
  lemma ParseIntOfPlus(s: string)
    requires 0 < |s| && AllDigits(s)
    ensures ParseInt("+" + s) == ParseInt(s)
  {
    assert ("+" + s)[1..] == s;
  }

  /** `int("-" + s) == -int(s)` for every non-empty digit run: a leading minus negates. */
  lemma ParseIntOfMinus(s: string)
    requires 0 < |s| && AllDigits(s)
    ensures ParseInt(s).Some?
    ensures ParseInt("-" + s) == Some(-ParseInt(s).value)
  {
    assert ("-" + s)[1..] == s;
  }

  /** A digit run that does not start with `0` denotes a positive number. */
  lemma {:induction false} DigitsValuePositive(s: string)
    requires 0 < |s| && AllDigits(s) && s[0] != '0'
    ensures 0 < DigitsValue(s)
    decreases |s|
  {
    if 1 < |s| {
      var p := s[..|s| - 1];
      assert AllDigits(p) by {
        forall i | 0 <= i < |p| ensures IsDigit(p[i]) { assert p[i] == s[i]; }
      }
      DigitsValuePositive(p);
    }
  }

  /** A digit run without a leading zero (or `"0"` itself) is exactly what `str()` writes for
      the number it denotes; with `DigitsValueLeadingZero`, every digit run is then leading
      zeros followed by `str()` of its value. */
  lemma {:induction false} NatToStringOfDigits(s: string)
    requires 0 < |s| && AllDigits(s)
    requires s[0] == '0' ==> s == "0"
    ensures NatToString(DigitsValue(s)) == s
    decreases |s|
  {
    if |s| == 1 {
      assert s == [DigitChar(DigitValue(s[0]))];
    } else {
      var p := s[..|s| - 1];
      assert AllDigits(p) by {
        forall i | 0 <= i < |p| ensures IsDigit(p[i]) { assert p[i] == s[i]; }
      }
      assert p[0] == s[0];
      NatToStringOfDigits(p);
      DigitsValuePositive(p);
      var v := DigitsValue(s);
      var d := DigitValue(s[|s| - 1]);
      assert v == DigitsValue(p) * 10 + d;
      assert v / 10 == DigitsValue(p) && v % 10 == d;
      assert DigitChar(d) == s[|s| - 1];
      assert s == p + [s[|s| - 1]];
    }
  }
}

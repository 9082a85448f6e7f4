/**
 * The base-10 parse the integer decoder applies to `minimum` and `maximum`
 * (`big.Int.SetString(v, 10)`): an optional sign, then one or more decimal digits and nothing
 * else. Its partner is the decimal rendering of an integer, which it inverts.
 */
module Decimal {
  import opened Wrappers

  predicate IsDigit(c: char)
  {
    '0' <= c <= '9'
  }

  predicate AllDigits(s: string)
  {
    forall i | 0 <= i < |s| :: IsDigit(s[i])
  }

  /** The text SetString accepts in base 10. */
  predicate IsDecimal(s: string)
  {
    var digits := if |s| > 0 && (s[0] == '+' || s[0] == '-') then s[1..] else s;
    |digits| > 0 && AllDigits(digits)
  }

  function DigitValue(c: char): nat
    requires IsDigit(c)
  {
    (c as int) - ('0' as int)
  }

  function DigitChar(d: nat): (c: char)
    requires d < 10
    ensures IsDigit(c) && DigitValue(c) == d
  {
    ('0' as int + d) as char
  }

  /** The magnitude spelled by a non-empty run of digits, read most significant digit first. */
  function ParseDigits(s: string): (r: Option<nat>)
    ensures r.Some? <==> |s| > 0 && AllDigits(s)
  {
    if |s| == 0 || !IsDigit(s[|s| - 1]) then None
    else if |s| == 1 then Some(DigitValue(s[0]))
    else match ParseDigits(s[..|s| - 1])
      case None => None
      case Some(high) => Some(10 * high + DigitValue(s[|s| - 1]))
  }

  /** `big.NewInt(0).SetString(s, 10)`: the integer, or None where SetString reports failure. */
  function ParseDecimal(s: string): (r: Option<int>)
    ensures r.Some? <==> IsDecimal(s)
    ensures r.Some? && |s| > 0 && s[0] == '-' ==> r.value <= 0
    ensures r.Some? && |s| > 0 && s[0] != '-' ==> r.value >= 0
  {
    if |s| > 0 && (s[0] == '+' || s[0] == '-') then
      match ParseDigits(s[1..])
      case None => None
      case Some(m) => Some(if s[0] == '-' then -(m as int) else m as int)
    else
      match ParseDigits(s)
      case None => None
      case Some(m) => Some(m)
  }

  /** The digits of a natural number, most significant first, without leading zeros. */
  function FormatDigits(n: nat): string
  {
    if n < 10 then [DigitChar(n)] else FormatDigits(n / 10) + [DigitChar(n % 10)]
  }

  /** The decimal rendering of an integer, as big.Int's String gives it. */
  function FormatDecimal(n: int): string
  {
    if n < 0 then "-" + FormatDigits(-n) else FormatDigits(n)
  }

  lemma {:induction false} ParseFormatDigits(n: nat)
    ensures |FormatDigits(n)| > 0 && FormatDigits(n)[0] != '-' && FormatDigits(n)[0] != '+'
    ensures ParseDigits(FormatDigits(n)) == Some(n)
  {
    if n >= 10 {
      ParseFormatDigits(n / 10);
      var s := FormatDigits(n);
      assert s[..|s| - 1] == FormatDigits(n / 10);
    }
  }

  /** Parsing the rendering of any integer gives that integer back. */
  lemma {:induction false} ParseFormatDecimal(n: int)
    ensures ParseDecimal(FormatDecimal(n)) == Some(n)
  {
    if n < 0 {
      var d := FormatDigits(-n);
      ParseFormatDigits(-n);
      var s := "-" + d;
      assert s[0] == '-' && s[1..] == d;
      assert ParseDecimal(s) == Some(-(-n));
    } else {
      ParseFormatDigits(n);
    }
  }

  // ---- An independent reading: the positional sum of the digits ----

  function Pow10(k: nat): nat
  {
    if k == 0 then 1 else 10 * Pow10(k - 1)
  }

  /** The value of a run of digits as the sum of each digit times its place value. */
  function DigitsValue(s: string): nat
    requires AllDigits(s)
  {
    if |s| == 0 then 0 else DigitValue(s[0]) * Pow10(|s| - 1) + DigitsValue(s[1..])
  }

  /** Appending a digit multiplies the positional value by ten and adds the digit. */
  lemma {:induction false} DigitsValueSnoc(s: string)
    requires |s| > 0 && AllDigits(s)
    ensures DigitsValue(s) == 10 * DigitsValue(s[..|s| - 1]) + DigitValue(s[|s| - 1])
    decreases |s|
  {
    if |s| > 1 {
      var t, p := s[1..], s[..|s| - 1];
      DigitsValueSnoc(t);
      assert p[0] == s[0] && p[1..] == t[..|t| - 1] && t[|t| - 1] == s[|s| - 1];
      var d, k := DigitValue(s[0]), Pow10(|s| - 2);
      assert Pow10(|s| - 1) == 10 * k;
      calc {
        10 * DigitsValue(p) + DigitValue(s[|s| - 1]);
        10 * (d * k + DigitsValue(t[..|t| - 1])) + DigitValue(t[|t| - 1]);
        { assert 10 * (d * k) == d * (10 * k); }
        d * Pow10(|s| - 1) + DigitsValue(t);
      }
    } else {
      assert s[..0] == [];
    }
  }

  /** The digit parse gives the positional value of the digits. */
  lemma {:induction false} ParseDigitsIsPositional(s: string)
    requires |s| > 0 && AllDigits(s)
    ensures ParseDigits(s) == Some(DigitsValue(s))
    decreases |s|
  {
    DigitsValueSnoc(s);
    if |s| > 1 {
      ParseDigitsIsPositional(s[..|s| - 1]);
    } else {
      assert s[..0] == [];
    }
  }

  /**
   * Any text SetString accepts parses to the positional value of its digits, negated after a
   * `-`: a `+` sign and leading zeros change nothing.
   */
  lemma ParseDecimalIsPositional(s: string)
    requires IsDecimal(s)
    ensures var signed := |s| > 0 && (s[0] == '+' || s[0] == '-');
      var digits := if signed then s[1..] else s;
      ParseDecimal(s) == Some(if signed && s[0] == '-' then -(DigitsValue(digits) as int) else DigitsValue(digits) as int)
  {
    if |s| > 0 && (s[0] == '+' || s[0] == '-') {
      ParseDigitsIsPositional(s[1..]);
    } else {
      ParseDigitsIsPositional(s);
    }
  }

  /** A leading zero does not change the value of a run of digits. */
  lemma LeadingZero(s: string)
    requires |s| > 0 && AllDigits(s)
    ensures ParseDigits("0" + s) == ParseDigits(s)
  {
    var z := "0" + s;
    assert z[0] == '0' && z[1..] == s;
    assert AllDigits(z) by {
      forall i | 0 <= i < |z| ensures IsDigit(z[i]) {
        if i > 0 { assert z[i] == s[i - 1]; }
      }
    }
    assert DigitsValue(z) == DigitsValue(s);
    ParseDigitsIsPositional(z);
    ParseDigitsIsPositional(s);
  }

  /** A `+` sign changes nothing in front of any text that does not already start with a sign. */
  lemma PlusSign(s: string)
    requires |s| == 0 || (s[0] != '+' && s[0] != '-')
    ensures ParseDecimal("+" + s) == ParseDecimal(s)
  {
    assert ("+" + s)[1..] == s;
  }
}

/**
 Number parsing. The pages call JavaScript's `parseFloat`; the model does not
 fix its semantics and passes it around as a `Parser`, where `None` stands for
 `NaN`. Facts about the fixed preset strings ("0.1", "40", "-0.2", ...) are
 stated for every parser that reads plain decimal literals the usual way.
 */
module Numbers {
  import opened Base
  import opened Strings

  /** `parseFloat`, with `None` for `NaN`. */
  type Parser = string -> Option<real>

  predicate IsDigit(c: char)
  {
    '0' <= c <= '9'
  }

  predicate AllDigits(s: string)
  {
    forall i :: 0 <= i < |s| ==> IsDigit(s[i])
  }

  function DigitsValue(s: string): nat
    requires AllDigits(s)
  {
    if |s| == 0 then 0 else DigitsValue(s[..|s| - 1]) * 10 + (s[|s| - 1] as int - '0' as int)
  }

  function Pow10(n: nat): (r: nat)
    ensures r >= 1
  {
    if n == 0 then 1 else 10 * Pow10(n - 1)
  }

  /** Digits, optionally followed by '.' and more digits: "40", "0.1", "2.0". */
  function UnsignedDecimal(s: string): Option<real>
  {
    var i := IndexOf(s, '.');
    var whole := s[..i];
    if |whole| == 0 || !AllDigits(whole) then None
    else if i == |s| then Some(DigitsValue(whole) as real)
    else
      var frac := s[i + 1..];
      if |frac| == 0 || !AllDigits(frac) then None
      else Some(DigitsValue(whole) as real + DigitsValue(frac) as real / Pow10(|frac|) as real)
  }

  /** A plain decimal literal with an optional leading minus sign, read exactly. */
  function DecimalLiteral(s: string): Option<real>
  {
    if |s| > 0 && s[0] == '-' then
      match UnsignedDecimal(s[1..])
      case Some(v) => Some(-v)
      case None => None
    else UnsignedDecimal(s)
  }

  /** A string of digits is a decimal literal for its value. */
  lemma DigitsAreWhole(s: string)
    requires |s| > 0 && AllDigits(s)
    ensures DecimalLiteral(s) == Some(DigitsValue(s) as real)
  {
    assert s[0] != '-';
    assert IndexOf(s, '.') == |s|;
    assert s[..|s|] == s;
  }

  function DigitOf(c: char): int
  {
    c as int - '0' as int
  }

  /** "d", "dd" and "ddd" read as whole numbers. */
  lemma ShortWhole(s: string)
    requires 1 <= |s| <= 3 && AllDigits(s)
    ensures |s| == 1 ==> DecimalLiteral(s) == Some(DigitOf(s[0]) as real)
    ensures |s| == 2 ==> DecimalLiteral(s) == Some((10 * DigitOf(s[0]) + DigitOf(s[1])) as real)
    ensures |s| == 3 ==> DecimalLiteral(s) == Some((100 * DigitOf(s[0]) + 10 * DigitOf(s[1]) + DigitOf(s[2])) as real)
  {
    DigitsAreWhole(s);
    var one := s[..1];
    assert one[..0] == [];
    assert DigitsValue(one) == DigitOf(s[0]);
    if |s| >= 2 {
      var two := s[..2];
      assert two[..1] == one;
      assert DigitsValue(two) == 10 * DigitOf(s[0]) + DigitOf(s[1]);
      if |s| == 3 {
        assert s[..2] == two;
      } else {
        assert s == two;
      }
    } else {
      assert s == one;
    }
  }

  /** "d.d" and "-d.d" read as d + d/10 and its negation. */
  lemma OneDecimalPlace(s: string)
    requires |s| == 3 && IsDigit(s[0]) && s[1] == '.' && IsDigit(s[2])
    ensures DecimalLiteral(s) == Some(DigitOf(s[0]) as real + DigitOf(s[2]) as real / 10.0)
    ensures DecimalLiteral("-" + s) == Some(-(DigitOf(s[0]) as real + DigitOf(s[2]) as real / 10.0))
  {
    assert IndexOf(s, '.') == 1;
    assert s[..1] == [s[0]] && s[2..] == [s[2]];
    assert [s[0]][..0] == [] && [s[2]][..0] == [];
    assert DigitsValue([s[0]]) == DigitOf(s[0]);
    assert DigitsValue([s[2]]) == DigitOf(s[2]);
    assert UnsignedDecimal(s) == Some(DigitOf(s[0]) as real + DigitOf(s[2]) as real / 10.0);
    assert ("-" + s)[1..] == s;
  }

  /** The parser reads every plain decimal literal as its exact value. */
  ghost predicate AgreesOnDecimals(parse: Parser)
  {
    forall s :: DecimalLiteral(s).Some? ==> parse(s) == DecimalLiteral(s)
  }
}

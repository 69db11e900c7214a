/** The text-to-number conversion that `astype(float)` performs on the
    rewritten currency and percentage texts, modelled as an exact decimal
    parse into `real`: an optional sign, digits, and at most one decimal
    point with at least one digit around it. */
module Decimal {

  datatype Option<T> = None | Some(value: T)

  predicate IsDigit(c: char) {
    '0' <= c <= '9'
  }

  predicate AllDigits(s: string) {
    forall i :: 0 <= i < |s| ==> IsDigit(s[i])
  }

  /** The natural number a string of decimal digits denotes. */
  function DigitsValue(s: string): nat
    requires AllDigits(s)
    decreases |s|
  {
    if s == [] then 0
    else DigitsValue(s[..|s| - 1]) * 10 + (s[|s| - 1] as int - '0' as int)
  }

  function Pow10(n: nat): (r: nat)
    ensures r >= 1
  {
    if n == 0 then 1 else 10 * Pow10(n - 1)
  }

  /** Position of the first '.', or the length when there is none. */
  function DotIndex(s: string): (k: nat)
    ensures k <= |s|
    ensures k < |s| ==> s[k] == '.'
    ensures forall i :: 0 <= i < k ==> s[i] != '.'
    decreases |s|
  {
    if s == [] then 0
    else if s[0] == '.' then 0
    else 1 + DotIndex(s[1..])
  }

  /** An unsigned decimal: `ddd`, `ddd.ddd`, `ddd.` or `.ddd`. */
  function ParseUnsigned(s: string): Option<real> {
    var k := DotIndex(s);
    var whole := s[..k];
    var fraction := if k < |s| then s[k + 1..] else [];
    if AllDigits(whole) && AllDigits(fraction) && |whole| + |fraction| > 0 then
      Some(DigitsValue(whole) as real + DigitsValue(fraction) as real / Pow10(|fraction|) as real)
    else None
  }

  /** A decimal with an optional leading '+' or '-'. */
  function ParseDecimal(s: string): Option<real> {
    if |s| > 0 && (s[0] == '-' || s[0] == '+') then
      match ParseUnsigned(s[1..])
      case Some(v) => Some(if s[0] == '-' then -v else v)
      case None => None
    else ParseUnsigned(s)
  }

  /** A text the unsigned parser accepts holds only digits and '.'. */
  lemma UnsignedCharacters(s: string)
    requires ParseUnsigned(s).Some?
    ensures forall i :: 0 <= i < |s| ==> IsDigit(s[i]) || s[i] == '.'
    ensures |s| > 0 && (IsDigit(s[0]) || s[0] == '.')
  {
    var k := DotIndex(s);
    forall i | 0 <= i < |s|
      ensures IsDigit(s[i]) || s[i] == '.'
    {
      if i < k {
        assert s[i] == s[..k][i];
      } else if i > k {
        assert s[i] == s[k + 1..][i - k - 1];
      }
    }
  }

  /** A leading '-' negates an unsigned decimal. */
  lemma NegatedParse(d: string)
    requires ParseUnsigned(d).Some?
    ensures ParseDecimal("-" + d) == Some(-ParseUnsigned(d).value)
  {
    assert ("-" + d)[1..] == d;
  }

  /** A text without a sign parses as an unsigned decimal. */
  lemma UnsignedParse(d: string)
    requires ParseUnsigned(d).Some?
    ensures ParseDecimal(d) == ParseUnsigned(d)
  {
    UnsignedCharacters(d);
  }

  /** A plain run of digits is read as the integer it denotes. */
  lemma DigitsParse(d: string)
    requires d != [] && AllDigits(d)
    ensures ParseDecimal(d) == Some(DigitsValue(d) as real)
  {
    assert DotIndex(d) == |d|;
    assert d[..|d|] == d;
  }
}

/** Integers as the decimal text a score counter shows: the template-literal
    rendering `${n}` that writes a counter and the `parseInt` that reads it back.
    The two are inverse bijections between the integers and the canonical
    decimal texts (FormatThenParse, ParseThenFormat). */
module Decimal {
  import opened Optional

  predicate IsDigit(ch: char) {
    '0' <= ch <= '9'
  }

  predicate AllDigits(s: string) {
    forall i :: 0 <= i < |s| ==> IsDigit(s[i])
  }

  function DigitValue(ch: char): (d: nat)
    requires IsDigit(ch)
    ensures d < 10
  {
    ch as int - '0' as int
  }

  function DigitChar(d: nat): (ch: char)
    requires d < 10
    ensures IsDigit(ch) && DigitValue(ch) == d
  {
    ('0' as int + d) as char
  }

  /** The number a run of decimal digits denotes, most significant digit first. */
  function ValueOf(s: string): nat
    requires AllDigits(s)
  {
    if s == [] then 0 else ValueOf(s[..|s| - 1]) * 10 + DigitValue(s[|s| - 1])
  }

  /** Digits with no leading zero, except the single digit "0". */
  predicate IsCanonicalDigits(s: string) {
    |s| > 0 && AllDigits(s) && (s[0] == '0' ==> |s| == 1)
  }

  /** A canonical decimal integer: canonical digits, optionally after a minus
      sign, and never "-0". */
  predicate IsCanonicalInt(s: string) {
    if |s| > 0 && s[0] == '-' then IsCanonicalDigits(s[1..]) && s[1..] != "0"
    else IsCanonicalDigits(s)
  }

  /** A canonical run of digits that starts with 0 is "0" itself. */
  lemma LeadingZeroIsZero(s: string)
    requires IsCanonicalDigits(s)
    ensures s[0] == '0' ==> ValueOf(s) == 0
  {
    if s[0] == '0' {
      assert s == [s[0]] && s[..0] == [];
    }
  }

  /** The decimal digits of n, most significant first. */
  function Digits(n: nat): (r: string)
    ensures IsCanonicalDigits(r) && ValueOf(r) == n
    decreases n
  {
    if n < 10 then
      assert [DigitChar(n)][..0] == [];
      [DigitChar(n)]
    else
      var prefix := Digits(n / 10);
      var r := prefix + [DigitChar(n % 10)];
      assert r[..|r| - 1] == prefix;
      assert prefix[0] != '0' by { LeadingZeroIsZero(prefix); }
      r
  }

  /** How JavaScript renders an integral number in a template literal. */
  function FormatInt(n: int): (r: string)
    ensures IsCanonicalInt(r)
  {
    if n < 0 then
      var digits := Digits(-n);
      assert ("-" + digits)[1..] == digits;
      "-" + digits
    else
      Digits(n)
  }

  /** The longest prefix of s made of decimal digits. */
  function LeadingDigits(s: string): (r: string)
    ensures r <= s && AllDigits(r)
    ensures |r| < |s| ==> !IsDigit(s[|r|])
  {
    if s == [] || !IsDigit(s[0]) then [] else [s[0]] + LeadingDigits(s[1..])
  }

  /** s without one leading sign character. */
  function Unsigned(s: string): string {
    if |s| > 0 && (s[0] == '-' || s[0] == '+') then s[1..] else s
  }

  /** JavaScript's parseInt with no radix, on text that starts with neither
      white space nor a "0x" prefix: an optional sign, then the longest run of
      decimal digits; whatever follows the run is ignored. None stands for
      NaN, the result when that run is empty. */
  function ParseInt(s: string): (r: Option<int>)
    ensures r.None? <==> Unsigned(s) == [] || !IsDigit(Unsigned(s)[0])
    ensures r.Some? && |s| > 0 && s[0] == '-' ==> r.value <= 0
    ensures r.Some? && !(|s| > 0 && s[0] == '-') ==> r.value >= 0
  {
    var digits := LeadingDigits(Unsigned(s));
    if digits == [] then None
    else if |s| > 0 && s[0] == '-' then Some(0 - ValueOf(digits))
    else Some(ValueOf(digits))
  }

  lemma AllDigitsLeadingDigits(s: string)
    requires AllDigits(s)
    ensures LeadingDigits(s) == s
  {
  }

  /** Reading back what was written gives the number that was written. */
  lemma FormatThenParse(n: int)
    ensures ParseInt(FormatInt(n)) == Some(n)
  {
    var magnitude := if n < 0 then -n else n;
    var digits := Digits(magnitude);
    AllDigitsLeadingDigits(digits);
    if n < 0 {
      assert Unsigned(FormatInt(n)) == digits;
    } else {
      assert IsDigit(digits[0]);
      assert Unsigned(FormatInt(n)) == digits;
    }
  }

  lemma {:induction false} LeadingNonZeroIsPositive(s: string)
    requires |s| > 0 && AllDigits(s) && s[0] != '0'
    ensures ValueOf(s) > 0
  {
    if |s| > 1 {
      LeadingNonZeroIsPositive(s[..|s| - 1]);
    }
  }

  lemma {:induction false} DigitsOfValue(s: string)
    requires IsCanonicalDigits(s)
    ensures Digits(ValueOf(s)) == s
  {
    var last := s[|s| - 1];
    if |s| == 1 {
      assert DigitChar(DigitValue(last)) == last;
      assert s == [last];
    } else {
      var prefix := s[..|s| - 1];
      LeadingNonZeroIsPositive(prefix);
      DigitsOfValue(prefix);
      var v := ValueOf(s);
      assert v / 10 == ValueOf(prefix) && v % 10 == DigitValue(last);
      assert DigitChar(DigitValue(last)) == last;
      assert s == prefix + [last];
    }
  }

  /** Every canonical decimal text is what formatting its parsed value
      writes: together with FormatThenParse, FormatInt and ParseInt are
      inverse on the canonical texts. */
  lemma ParseThenFormat(s: string)
    requires IsCanonicalInt(s)
    ensures ParseInt(s).Some? && FormatInt(ParseInt(s).value) == s
  {
    if |s| > 0 && s[0] == '-' {
      var digits := s[1..];
      AllDigitsLeadingDigits(digits);
      assert digits[0] != '0' by {
        assert |digits| == 1 ==> digits == [digits[0]];
      }
      LeadingNonZeroIsPositive(digits);
      DigitsOfValue(digits);
      assert s == "-" + digits;
    } else {
      assert IsDigit(s[0]);
      assert Unsigned(s) == s;
      AllDigitsLeadingDigits(s);
      DigitsOfValue(s);
    }
  }

}

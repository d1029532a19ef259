/**
 * Unsigned 32-bit integers and their decimal text form: the model of Rust's
 * `str::parse::<u32>` (an optional leading `+`, then one or more ASCII
 * digits, with a value of at most 2^32 - 1) and of the `Display` of a `u32`.
 */
module Decimal {
  import opened Wrappers

  const U32_LIMIT: nat := 0x1_0000_0000

  type u32 = n: nat | n < U32_LIMIT

  predicate IsDigit(c: char) {
    '0' <= c <= '9'
  }

  predicate AllDigits(s: string) {
    forall i :: 0 <= i < |s| ==> IsDigit(s[i])
  }

  function DigitValue(c: char): (d: nat)
    requires IsDigit(c)
    ensures d < 10
  {
    (c as int) - ('0' as int)
  }

  function DigitChar(d: nat): (c: char)
    requires d < 10
    ensures IsDigit(c) && DigitValue(c) == d
  {
    (('0' as int) + d) as char
  }

  /** The value of a run of decimal digits, most significant first. */
  function DigitsValue(s: string): nat
    requires AllDigits(s)
  {
    if |s| == 0 then 0 else DigitsValue(s[..|s| - 1]) * 10 + DigitValue(s[|s| - 1])
  }

  /** The digits `parse` reads: `s` without one leading `+`. */
  function Unsigned(s: string): string {
    if |s| > 0 && s[0] == '+' then s[1..] else s
  }

  /** `v.parse::<u32>().ok()`. */
  function ParseU32(s: string): (r: Option<u32>)
    ensures |s| == 0 ==> r.None?
    ensures s == "+" ==> r.None?
    ensures |s| > 0 && s[0] == '-' ==> r.None?
    ensures r.Some? ==> exists i :: 0 <= i < |s| && IsDigit(s[i])
  {
    var digits := Unsigned(s);
    if |digits| == 0 || !AllDigits(digits) then None
    else if DigitsValue(digits) < U32_LIMIT then Some(DigitsValue(digits))
    else None
  }

  /** The canonical decimal form of `n`: no sign, no leading zeros. */
  function DecimalString(n: nat): (s: string)
    ensures |s| > 0 && AllDigits(s)
    ensures DigitsValue(s) == n
    ensures |s| > 1 ==> s[0] != '0'
    decreases n
  {
    if n < 10 then [DigitChar(n)]
    else
      var prefix := DecimalString(n / 10);
      var s := prefix + [DigitChar(n % 10)];
      assert s[..|s| - 1] == prefix;
      s
  }

  /** Printing a `u32` and parsing it back gives the same number. */
  lemma {:induction false} ParseDecimalString(n: u32)
    ensures ParseU32(DecimalString(n)) == Some(n)
  {
    var s := DecimalString(n);
    assert IsDigit(s[0]);
    assert Unsigned(s) == s;
  }

  /** An explicit `+` sign is accepted as well. */
  lemma {:induction false} ParsePlusDecimalString(n: u32)
    ensures ParseU32("+" + DecimalString(n)) == Some(n)
  {
    var s := DecimalString(n);
    assert Unsigned("+" + s) == s;
  }

  /** A well-formed number beyond 2^32 - 1 is rejected rather than wrapped. */
  lemma {:induction false} ParseRejectsOverflow(n: nat)
    requires n >= U32_LIMIT
    ensures ParseU32(DecimalString(n)) == None
  {
    var s := DecimalString(n);
    assert IsDigit(s[0]);
    assert Unsigned(s) == s;
  }

  /** A leading zero before a run of digits does not change its value. */
  lemma {:induction false} DigitsValueLeadingZero(s: string)
    requires AllDigits(s)
    ensures AllDigits("0" + s) && DigitsValue("0" + s) == DigitsValue(s)
    decreases |s|
  {
    if |s| > 0 {
      var z := "0" + s;
      assert z[..|z| - 1] == "0" + s[..|s| - 1];
      DigitsValueLeadingZero(s[..|s| - 1]);
    }
  }

  /** Leading zeros are accepted: `"007"` reads as 7. */
  lemma {:induction false} ParseLeadingZero(s: string)
    requires |s| > 0 && AllDigits(s)
    ensures ParseU32("0" + s) == ParseU32(s)
  {
    DigitsValueLeadingZero(s);
    assert Unsigned("0" + s) == "0" + s;
    assert Unsigned(s) == s;
  }

  /** Any character other than an ASCII digit after the optional sign rejects the text. */
  lemma {:induction false} ParseRejectsNonDigit(s: string, i: nat)
    requires i < |Unsigned(s)| && !IsDigit(Unsigned(s)[i])
    ensures ParseU32(s) == None
  {
  }
}

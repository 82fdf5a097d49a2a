/**
 * The small part of JavaScript's number/string conversions that the
 * frontend relies on: `parseInt(s, 10)`, `n.toString()` for a natural
 * number, and `s.padStart(2, "0")`.
 */
module Text {

  predicate IsDigit(c: char) {
    '0' <= c <= '9'
  }

  predicate AllDigits(s: string) {
    forall i :: 0 <= i < |s| ==> IsDigit(s[i])
  }

  function DigitValue(c: char): (d: nat)
    requires IsDigit(c)
    ensures d < 10
  {
    c as int - '0' as int
  }

  function DigitChar(d: nat): (c: char)
    requires d < 10
    ensures IsDigit(c) && DigitValue(c) == d
  {
    ('0' as int + d) as char
  }

  /** The value of a decimal numeral, most significant digit first. */
  function DigitsValue(s: string): nat
    requires AllDigits(s)
    decreases |s|
  {
    if s == [] then 0 else DigitsValue(s[..|s| - 1]) * 10 + DigitValue(s[|s| - 1])
  }

  /** The longest run of digits at the start of `s`. */
  function LeadingDigits(s: string): (r: string)
    ensures AllDigits(r) && |r| <= |s| && r == s[..|r|]
    ensures |r| < |s| ==> !IsDigit(s[|r|])
  {
    if s == [] || !IsDigit(s[0]) then [] else [s[0]] + LeadingDigits(s[1..])
  }

  /** A string on which `parseInt(s, 10)` yields a number rather than NaN. */
  predicate ParsesAsInt(s: string) {
    |s| > 0 && IsDigit(s[0])
  }

  /**
   * `parseInt(s, 10)`: the value of the leading digits; whatever follows
   * them is ignored.
   */
  function ParseInt(s: string): nat
    requires ParsesAsInt(s)
  {
    DigitsValue(LeadingDigits(s))
  }

  /** `n.toString()` for a natural number: decimal, no leading zero. */
  function NatToString(n: nat): (s: string)
    ensures AllDigits(s) && |s| >= 1
    ensures |s| > 1 ==> s[0] != '0'
    ensures DigitsValue(s) == n
    decreases n
  {
    if n < 10 then [DigitChar(n)]
    else
      var s := NatToString(n / 10) + [DigitChar(n % 10)];
      assert s[..|s| - 1] == NatToString(n / 10);
      s
  }

  /** `s.padStart(2, "0")`. */
  function PadStart2(s: string): string {
    if |s| == 0 then "00" else if |s| == 1 then "0" + s else s
  }

  /** The digits of a numeral never run into whatever follows it. */
  lemma {:induction false} LeadingDigitsOfNumeral(d: string, rest: string)
    requires AllDigits(d)
    requires rest == [] || !IsDigit(rest[0])
    ensures LeadingDigits(d + rest) == d
    decreases |d|
  {
    if d != [] {
      assert (d + rest)[1..] == d[1..] + rest;
      LeadingDigitsOfNumeral(d[1..], rest);
      assert [d[0]] + d[1..] == d;
    }
  }

  /** `parseInt` reads back what `toString` wrote, even with a tail. */
  lemma ParseIntOfNatToString(n: nat, rest: string)
    requires rest == [] || !IsDigit(rest[0])
    ensures ParsesAsInt(NatToString(n) + rest)
    ensures ParseInt(NatToString(n) + rest) == n
  {
    LeadingDigitsOfNumeral(NatToString(n), rest);
  }

  /** `parseInt` reads back what `toString` wrote. */
  lemma ParseNatToString(n: nat)
    ensures ParsesAsInt(NatToString(n)) && ParseInt(NatToString(n)) == n
  {
    ParseIntOfNatToString(n, []);
    assert NatToString(n) + [] == NatToString(n);
  }

  /** Splitting a numeral at its last digit. */
  lemma DigitsValueSnoc(d: string, c: char)
    requires AllDigits(d) && IsDigit(c)
    ensures AllDigits(d + [c])
    ensures DigitsValue(d + [c]) == DigitsValue(d) * 10 + DigitValue(c)
  {
    assert (d + [c])[..|d + [c]| - 1] == d;
  }

  /** A leading zero does not change the value of a numeral. */
  lemma {:induction false} LeadingZero(d: string)
    requires AllDigits(d)
    ensures AllDigits("0" + d)
    ensures DigitsValue("0" + d) == DigitsValue(d)
    decreases |d|
  {
    if d != [] {
      var init := d[..|d| - 1];
      LeadingZero(init);
      assert "0" + d == ("0" + init) + [d[|d| - 1]];
      DigitsValueSnoc("0" + init, d[|d| - 1]);
    }
  }

  /** Padding a numeral to two digits keeps its value. */
  lemma PadStart2Value(d: string)
    requires AllDigits(d)
    ensures AllDigits(PadStart2(d))
    ensures |PadStart2(d)| == if |d| < 2 then 2 else |d|
    ensures DigitsValue(PadStart2(d)) == DigitsValue(d)
  {
    if |d| == 0 {
      assert PadStart2(d) == "0" + "0";
      LeadingZero("0");
    } else if |d| == 1 {
      LeadingZero(d);
    }
  }

  /** A number below 100 has at most two digits. */
  lemma NatToStringShort(n: nat)
    ensures n < 100 ==> |NatToString(n)| <= 2
  {
    if 10 <= n < 100 {
      assert NatToString(n) == NatToString(n / 10) + [DigitChar(n % 10)];
      assert n / 10 < 10;
    }
  }

  /** The two-digit padded numeral of `n`. */
  function Pad2(n: nat): (s: string)
    ensures AllDigits(s) && |s| >= 2 && DigitsValue(s) == n
    ensures n < 100 ==> |s| == 2
  {
    PadStart2Value(NatToString(n));
    NatToStringShort(n);
    PadStart2(NatToString(n))
  }
}

/**
 * Exact decimal numbers as decimal.js prints them: a sign, the digits before
 * the point and the digits after it, with no redundant zero on either side.
 * One number has one such form, so equal decimals are equal values.
 */
module Decimals {
  import opened Text

  datatype Decimal = Decimal(negative: bool, whole: string, fraction: string)

  predicate Canonical(d: Decimal) {
    && |d.whole| > 0 && AllDigits(d.whole) && AllDigits(d.fraction)
    && (|d.whole| > 1 ==> d.whole[0] != '0')
    && (|d.fraction| > 0 ==> d.fraction[|d.fraction| - 1] != '0')
    && (d.negative ==> d.whole != "0" || d.fraction != "")
  }

  function DigitsValue(digits: string): nat
    requires AllDigits(digits)
  {
    if digits == "" then 0
    else 10 * DigitsValue(digits[..|digits| - 1]) + (digits[|digits| - 1] - '0') as nat
  }

  /** The decimal digits of a whole number. */
  function Digits(n: nat): (s: string)
    ensures AllDigits(s) && |s| > 0
    ensures |s| > 1 ==> s[0] != '0'
    ensures n > 0 ==> s[0] != '0'
    ensures DigitsValue(s) == n
  {
    if n < 10 then [n as char + '0']
    else
      var s := Digits(n / 10) + [(n % 10) as char + '0'];
      assert s[..|s| - 1] == Digits(n / 10);
      s
  }

  function Natural(n: nat): (d: Decimal)
    ensures Canonical(d)
  {
    Decimal(false, Digits(n), "")
  }

  function TenTo(n: nat): (r: real)
    ensures r > 0.0
  {
    if n == 0 then 1.0 else 10.0 * TenTo(n - 1)
  }

  function RealOf(d: Decimal): real
    requires Canonical(d)
  {
    var magnitude := DigitsValue(d.whole) as real + DigitsValue(d.fraction) as real / TenTo(|d.fraction|);
    if d.negative then -magnitude else magnitude
  }

  function DropLeadingZeros(digits: string): (r: string)
    requires AllDigits(digits)
    ensures AllDigits(r) && |r| > 0 && (|r| > 1 ==> r[0] != '0')
    ensures |digits| > 0 && (|digits| > 1 ==> digits[0] != '0') ==> r == digits
  {
    if digits == "" then "0"
    else if digits[0] == '0' && |digits| > 1 then DropLeadingZeros(digits[1..])
    else digits
  }

  function DropTrailingZeros(digits: string): (r: string)
    requires AllDigits(digits)
    ensures AllDigits(r) && (|r| > 0 ==> r[|r| - 1] != '0')
    ensures (|digits| > 0 ==> digits[|digits| - 1] != '0') ==> r == digits
  {
    if digits != "" && digits[|digits| - 1] == '0' then DropTrailingZeros(digits[..|digits| - 1]) else digits
  }

  /** The index of the first decimal point, or the length. */
  function PointAt(s: string): (n: nat)
    ensures n <= |s|
    ensures forall i :: 0 <= i < n ==> s[i] != '.'
    ensures n < |s| ==> s[n] == '.'
  {
    if s == "" || s[0] == '.' then 0 else 1 + PointAt(s[1..])
  }

  function WholePart(s: string): string {
    s[..PointAt(s)]
  }

  function FractionPart(s: string): string {
    if PointAt(s) < |s| then s[PointAt(s) + 1..] else ""
  }

  /** `^\d*\.?\d+$|^\d+\.?\d*$`: at most one point, at least one digit, nothing else. */
  predicate IsNumeral(s: string) {
    && AllDigits(WholePart(s)) && AllDigits(FractionPart(s))
    && (WholePart(s) != "" || FractionPart(s) != "")
  }

  /** `new Decimal(raw)` of an unsigned numeral. */
  function Numeral(s: string): (d: Decimal)
    requires IsNumeral(s)
    ensures Canonical(d) && !d.negative
  {
    Decimal(false, DropLeadingZeros(WholePart(s)), DropTrailingZeros(FractionPart(s)))
  }

  // ----- printing (formatValue) -----

  /** A comma before every group of three digits counted from the right. */
  function Grouped(whole: string): string
    decreases |whole|
  {
    if |whole| <= 3 then whole else Grouped(whole[..|whole| - 3]) + "," + whole[|whole| - 3..]
  }

  function Magnitude(d: Decimal): string {
    if d.fraction == "" then Grouped(d.whole) else Grouped(d.whole) + "." + d.fraction
  }

  function FormatValue(d: Decimal): string {
    if d.negative then "-" + Magnitude(d) else Magnitude(d)
  }

  // ----- what stripping the commas of a printed number leaves -----

  function StripCommas(s: string): (r: string)
    ensures (forall i :: 0 <= i < |s| ==> s[i] != ',') ==> r == s
    ensures |r| <= |s|
  {
    if s == "" then "" else (if s[0] == ',' then "" else [s[0]]) + StripCommas(s[1..])
  }

  lemma {:induction false} StripConcat(a: string, b: string)
    ensures StripCommas(a + b) == StripCommas(a) + StripCommas(b)
  {
    if a == "" {
      assert a + b == b;
    } else {
      var head := if a[0] == ',' then "" else [a[0]];
      calc {
        StripCommas(a + b);
        { assert (a + b)[1..] == a[1..] + b && (a + b)[0] == a[0]; }
        head + StripCommas(a[1..] + b);
        { StripConcat(a[1..], b); }
        head + (StripCommas(a[1..]) + StripCommas(b));
        (head + StripCommas(a[1..])) + StripCommas(b);
        StripCommas(a) + StripCommas(b);
      }
    }
  }

  lemma {:induction false} StripNextGroup(front: string, tail: string)
    requires AllDigits(tail)
    ensures StripCommas(front + "," + tail) == StripCommas(front) + tail
  {
    StripConcat(front + ",", tail);
    StripConcat(front, ",");
    assert StripCommas(",") == "" by {
      assert ","[1..] == "";
    }
  }

  lemma {:induction false} StripGrouped(whole: string)
    requires AllDigits(whole)
    ensures StripCommas(Grouped(whole)) == whole
    decreases |whole|
  {
    if |whole| > 3 {
      var head, tail := whole[..|whole| - 3], whole[|whole| - 3..];
      StripGrouped(head);
      StripNextGroup(Grouped(head), tail);
      assert whole == head + tail;
    }
  }

  lemma {:induction false} SplitAtPoint(a: string, b: string)
    requires AllDigits(a)
    ensures PointAt(a + "." + b) == |a|
    ensures WholePart(a + "." + b) == a && FractionPart(a + "." + b) == b
    ensures WholePart(a) == a && FractionPart(a) == ""
  {
    var s := a + "." + b;
    if a != "" {
      SplitAtPoint(a[1..], b);
      assert s[1..] == a[1..] + "." + b;
      assert s[0] == a[0];
    }
    assert forall i :: 0 <= i < |a| ==> IsDigit(a[i]) && a[i] != '.';
  }

  /** A printed number reads back, commas dropped, as the number itself. */
  lemma {:induction false} MagnitudeReadsBack(d: Decimal)
    requires Canonical(d)
    ensures IsNumeral(StripCommas(Magnitude(d)))
    ensures Numeral(StripCommas(Magnitude(d))) == d.(negative := false)
  {
    StripGrouped(d.whole);
    SplitAtPoint(d.whole, d.fraction);
    if d.fraction != "" {
      StripConcat(Grouped(d.whole) + ".", d.fraction);
      StripConcat(Grouped(d.whole), ".");
      assert StripCommas(".") == ".";
      assert StripCommas(Magnitude(d)) == d.whole + "." + d.fraction;
    }
  }
}

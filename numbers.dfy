/**
 * The number conversions the pipeline relies on, over exact decimals:
 * Python's `int(s)` and `float(s)` on strings, `str(n)` on integers,
 * the `f"{x:.2f}"` format and `round(x, 2)`.
 * Binary floating point is not modelled: values are `real`s.
 */
module Numbers {
  import opened Wrappers

  predicate IsDigit(c: char) { '0' <= c <= '9' }

  predicate AllDigits(s: string) {
    forall i :: 0 <= i < |s| ==> IsDigit(s[i])
  }

  function DigitValue(c: char): (d: nat)
    requires IsDigit(c)
    ensures d < 10
  {
    c as int - '0' as int
  }

  function DigitChar(d: nat): (c: char)
    requires d < 10
    ensures IsDigit(c) && DigitValue(c) == d
  {
    ('0' as int + d) as char
  }

  /** The value of a string of decimal digits, most significant first. */
  function DigitsValue(s: string): nat
    requires AllDigits(s)
    decreases |s|
  {
    if s == [] then 0 else 10 * DigitsValue(s[..|s| - 1]) + DigitValue(s[|s| - 1])
  }

  function Pow10(n: nat): (p: nat)
    ensures p >= 1
  {
    if n == 0 then 1 else 10 * Pow10(n - 1)
  }

  /** Python's `str(n)` for a non-negative integer: no sign, no leading zeros. */
  function NatToString(n: nat): (s: string)
    ensures s != [] && AllDigits(s)
    ensures |s| > 1 ==> s[0] != '0'
    decreases n
  {
    if n < 10 then [DigitChar(n)] else NatToString(n / 10) + [DigitChar(n % 10)]
  }

  /** Python's `str(n)` for any integer. */
  function IntToString(n: int): (s: string)
    ensures s != []
    ensures n >= 0 ==> AllDigits(s)
    ensures n < 0 ==> s[0] == '-' && |s| > 1 && AllDigits(s[1..])
  {
    if n < 0 then "-" + NatToString(-n) else NatToString(n)
  }

  /** Python's `int(s)`: an optional sign followed by one or more decimal digits. */
  function ParseInt(s: string): (r: Option<int>)
    ensures r.Some? <==> s != [] && (AllDigits(s) || ((s[0] == '-' || s[0] == '+') && |s| > 1 && AllDigits(s[1..])))
    ensures r.Some? && s[0] != '-' ==> r.value >= 0
    ensures r.Some? && s[0] == '-' ==> r.value <= 0
  {
    if s != [] && (s[0] == '-' || s[0] == '+') then
      var body := s[1..];
      if body != [] && AllDigits(body) then
        Some(if s[0] == '-' then -(DigitsValue(body) as int) else DigitsValue(body))
      else None
    else if s != [] && AllDigits(s) then Some(DigitsValue(s))
    else None
  }

  /** Index of the first '.' in `s`, or |s| when there is none. */
  function DotIndex(s: string): (k: nat)
    ensures k <= |s|
    ensures k < |s| ==> s[k] == '.'
    ensures forall i :: 0 <= i < k ==> s[i] != '.'
  {
    if s == [] then 0 else if s[0] == '.' then 0 else 1 + DotIndex(s[1..])
  }

  /** The value of the decimal with digits `whole` before the point and `frac` after it. */
  function DecimalValue(whole: string, frac: string): real
    requires AllDigits(whole) && AllDigits(frac)
  {
    DigitsValue(whole) as real + DigitsValue(frac) as real / Pow10(|frac|) as real
  }

  /** An unsigned decimal: digits, optionally a '.' and more digits, at least one digit in all. */
  function ParseUnsignedDecimal(s: string): (r: Option<real>)
    ensures r.Some? ==> s != [] && r.value >= 0.0
  {
    var k := DotIndex(s);
    if k == |s| then
      if s != [] && AllDigits(s) then Some(DigitsValue(s) as real) else None
    else
      var whole, frac := s[..k], s[k + 1..];
      if (whole != [] || frac != []) && AllDigits(whole) && AllDigits(frac) then
        Some(DecimalValue(whole, frac))
      else None
  }

  /** Python's `float(s)` on the decimal notation: an optional sign and an unsigned decimal. */
  function ParseFloat(s: string): (r: Option<real>)
    ensures r.Some? ==> s != []
    ensures r.Some? && s[0] != '-' ==> r.value >= 0.0
    ensures r.Some? && s[0] == '-' ==> r.value <= 0.0
  {
    if s != [] && (s[0] == '-' || s[0] == '+') then
      match ParseUnsignedDecimal(s[1..])
      case Some(v) => Some(if s[0] == '-' then -v else v)
      case None => None
    else ParseUnsignedDecimal(s)
  }

  function Abs(x: real): real { if x < 0.0 then -x else x }

  /** The integer nearest to `x`, ties going to the even neighbour. */
  function RoundHalfEven(x: real): (r: int)
    ensures x - 0.5 <= r as real <= x + 0.5
    ensures (r as real == x - 0.5 || r as real == x + 0.5) ==> r % 2 == 0
  {
    var f := x.Floor;
    var d := x - f as real;
    if d < 0.5 then f
    else if d > 0.5 then f + 1
    else if f % 2 == 0 then f else f + 1
  }

  /** The magnitude of `x` in whole cents, as `f"{x:.2f}"` rounds it. */
  function Cents(x: real): (c: nat)
    ensures Abs(x) * 100.0 - 0.5 <= c as real <= Abs(x) * 100.0 + 0.5
  {
    RoundHalfEven(Abs(x) * 100.0)
  }

  /** A whole number of cents `c` written as units, a '.', and exactly two decimals. */
  function CentsText(c: nat): (s: string)
    ensures s != [] && IsDigit(s[0])
    ensures |s| >= 4 && s[|s| - 3] == '.' && IsDigit(s[|s| - 2]) && IsDigit(s[|s| - 1])
  {
    NatToString(c / 100) + "." + [DigitChar(c % 100 / 10), DigitChar(c % 10)]
  }

  /** Python's `f"{x:.2f}"`: the sign of `x`, then its magnitude rounded to cents. */
  function Format2(x: real): (s: string)
    ensures |s| >= 4
    ensures x < 0.0 <==> s[0] == '-'
    ensures x >= 0.0 ==> IsDigit(s[0])
    ensures s[|s| - 3] == '.' && IsDigit(s[|s| - 2]) && IsDigit(s[|s| - 1])
  {
    (if x < 0.0 then "-" else "") + CentsText(Cents(x))
  }

  /** The number `Format2(x)` denotes. */
  function Rounded2(x: real): (v: real)
    ensures Abs(v - x) <= 0.005
  {
    SignedCents(x < 0.0, Cents(x))
  }

  /** The value of `c` cents, negated when `neg`. */
  function SignedCents(neg: bool, c: nat): real {
    if neg then -(c as real) / 100.0 else c as real / 100.0
  }

  /** Python's `round(x, 2)`. */
  function RoundTo2(x: real): (v: real)
    ensures Abs(v - x) <= 0.005
    ensures OnCentGrid(v)
  {
    WholeOnGrid(RoundHalfEven(x * 100.0));
    RoundHalfEven(x * 100.0) as real / 100.0
  }

  /** `v` is a whole number of cents. */
  predicate OnCentGrid(v: real) {
    (v * 100.0).Floor as real == v * 100.0
  }

  lemma {:induction false} DigitsValueOfNatToString(n: nat)
    ensures DigitsValue(NatToString(n)) == n
    decreases n
  {
    if n >= 10 {
      var s := NatToString(n);
      assert s[..|s| - 1] == NatToString(n / 10);
      DigitsValueOfNatToString(n / 10);
    }
  }

  lemma {:induction false} NoDotInDigits(s: string)
    requires AllDigits(s)
    ensures DotIndex(s) == |s|
    decreases |s|
  {
    if s != [] {
      assert s[0] != '.';
      NoDotInDigits(s[1..]);
    }
  }

  lemma {:induction false} DotIndexAfterDigits(a: string, b: string)
    requires AllDigits(a)
    ensures DotIndex(a + "." + b) == |a|
    decreases |a|
  {
    if a != [] {
      assert (a + "." + b)[1..] == a[1..] + "." + b;
      DotIndexAfterDigits(a[1..], b);
    }
  }

  /** `int(str(n)) == n`. */
  lemma IntRoundTrip(n: int)
    ensures ParseInt(IntToString(n)) == Some(n)
  {
    if n < 0 {
      NegativeIntRoundTrip(-n);
    } else {
      DigitsValueOfNatToString(n);
    }
  }

  lemma NegativeIntRoundTrip(m: nat)
    requires m > 0
    ensures ParseInt("-" + NatToString(m)) == Some(-(m as int))
  {
    assert ("-" + NatToString(m))[1..] == NatToString(m);
    DigitsValueOfNatToString(m);
  }

  lemma TwoDigitsValue(c: nat)
    ensures DigitsValue([DigitChar(c % 100 / 10), DigitChar(c % 10)]) == c % 100
  {
    var t := [DigitChar(c % 100 / 10), DigitChar(c % 10)];
    assert t[..1] == [DigitChar(c % 100 / 10)];
    assert t[..1][..0] == [];
    assert DigitsValue(t[..1]) == c % 100 / 10;
    assert DigitsValue(t) == 10 * (c % 100 / 10) + c % 10;
  }

  /** A run of digits, a '.', and a run of digits parses to whole part plus fraction. */
  lemma ParseDigitsDotDigits(whole: string, frac: string)
    requires whole != [] && AllDigits(whole) && AllDigits(frac)
    ensures ParseUnsignedDecimal(whole + "." + frac) == Some(DecimalValue(whole, frac))
  {
    var s := whole + "." + frac;
    DotIndexAfterDigits(whole, frac);
    var k := DotIndex(s);
    assert k == |whole| < |s|;
    assert s[..k] == whole;
    assert s[k + 1..] == frac;
    assert AllDigits(s[..k]) && AllDigits(s[k + 1..]);
  }

  lemma UnsignedCentsRoundTrip(c: nat)
    ensures ParseUnsignedDecimal(CentsText(c)) == Some(c as real / 100.0)
  {
    var whole := NatToString(c / 100);
    var frac := [DigitChar(c % 100 / 10), DigitChar(c % 10)];
    ParseDigitsDotDigits(whole, frac);
    DigitsValueOfNatToString(c / 100);
    TwoDigitsValue(c);
    assert Pow10(|frac|) == 100;
    assert DecimalValue(whole, frac) == (c / 100) as real + (c % 100) as real / 100.0;
    CentsSplit(c);
  }

  lemma CentsSplit(c: nat)
    ensures (c / 100) as real + (c % 100) as real / 100.0 == c as real / 100.0
  {
    assert c == 100 * (c / 100) + c % 100;
  }

  /** `float(f"{x:.2f}")` is `x` rounded to whole cents. */
  lemma Format2RoundTrip(x: real)
    ensures ParseFloat(Format2(x)) == Some(Rounded2(x))
  {
    SignedCentsRoundTrip(x < 0.0, Cents(x));
  }

  lemma SignedCentsRoundTrip(neg: bool, c: nat)
    ensures ParseFloat((if neg then "-" else "") + CentsText(c)) == Some(SignedCents(neg, c))
  {
    UnsignedCentsRoundTrip(c);
    SignedParse(CentsText(c), c as real / 100.0);
    if !neg {
      assert "" + CentsText(c) == CentsText(c);
    }
  }

  /** A decimal starting with a digit parses as itself, and with a '-' in front as its negation. */
  lemma SignedParse(u: string, v: real)
    requires u != [] && IsDigit(u[0]) && ParseUnsignedDecimal(u) == Some(v)
    ensures ParseFloat(u) == Some(v)
    ensures ParseFloat("-" + u) == Some(-v)
  {
    assert ("-" + u)[1..] == u;
  }

  /** What `f"{x:.2f}"` prints is always a whole number of cents. */
  lemma Rounded2OnGrid(x: real)
    ensures OnCentGrid(Rounded2(x))
  {
    var m: int := if x < 0.0 then -(Cents(x) as int) else Cents(x);
    assert Rounded2(x) == m as real / 100.0;
    WholeOnGrid(m);
  }

  lemma WholeOnGrid(m: int)
    ensures OnCentGrid(m as real / 100.0)
  {
    assert (m as real / 100.0) * 100.0 == m as real;
    assert (m as real).Floor == m;
  }

  /** `round(v, 2)` leaves a whole number of cents unchanged. */
  lemma RoundTo2OnGrid(v: real)
    requires OnCentGrid(v)
    ensures RoundTo2(v) == v
  {
    var m := (v * 100.0).Floor;
    assert RoundHalfEven(v * 100.0) == m;
  }

  /** A whole number of cents is printed without rounding. */
  lemma CentsOfWholeCents(c: nat)
    ensures Cents(c as real / 100.0) == c
  {
    assert Abs(c as real / 100.0) * 100.0 == c as real;
  }

  lemma SumOnGrid(a: real, b: real)
    requires OnCentGrid(a) && OnCentGrid(b)
    ensures OnCentGrid(a + b)
  {
    var m, n := (a * 100.0).Floor, (b * 100.0).Floor;
    assert (a + b) * 100.0 == (m + n) as real;
  }
}

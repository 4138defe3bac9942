/**
 * Decimal rendering of integers, as Python's `str(int)` and the zero-padded
 * format specs `{n:02d}` / `{n:04d}` (and strftime's `%m`, `%Y`, ...) produce it,
 * together with the value of a digit string, which gives the round trips.
 */
module Decimal {

  predicate IsDigit(c: char) { '0' <= c <= '9' }

  predicate AllDigits(s: string) { forall i :: 0 <= i < |s| ==> IsDigit(s[i]) }

  function DigitValue(c: char): nat
    requires IsDigit(c)
  {
    c as int - '0' as int
  }

  function DigitChar(d: nat): (c: char)
    requires d < 10
    ensures IsDigit(c) && DigitValue(c) == d
  {
    ('0' as int + d) as char
  }

  function Pow10(k: nat): (p: nat)
    ensures p >= 1
  {
    if k == 0 then 1 else 10 * Pow10(k - 1)
  }

  /** The digits of `n` without leading zeros ("0" for zero). */
  function Digits(n: nat): (s: string)
    ensures 1 <= |s| && AllDigits(s)
    decreases n
  {
    if n < 10 then [DigitChar(n)] else Digits(n / 10) + [DigitChar(n % 10)]
  }

  /** The number a digit string denotes; leading zeros add nothing. */
  function ValueOf(s: string): nat
    requires AllDigits(s)
  {
    if s == [] then 0 else 10 * ValueOf(s[..|s| - 1]) + DigitValue(s[|s| - 1])
  }

  function Zeros(k: nat): (s: string)
    ensures |s| == k && AllDigits(s)
  {
    seq(k, _ => '0')
  }

  /** `{n:0<width>d}` for a non-negative `n`: never truncates, pads on the left with zeros. */
  function Pad(n: nat, width: nat): (s: string)
    ensures AllDigits(s)
  {
    var d := Digits(n);
    if |d| >= width then d else Zeros(width - |d|) + d
  }

  /** `str(i)` for a Python int. */
  function IntToString(i: int): (s: string)
    ensures 1 <= |s|
  {
    if i < 0 then "-" + Digits(-i) else Digits(i)
  }

  lemma {:induction false} DigitsRoundTrip(n: nat)
    ensures ValueOf(Digits(n)) == n
    decreases n
  {
    if n >= 10 {
      var s := Digits(n);
      assert s[..|s| - 1] == Digits(n / 10);
      DigitsRoundTrip(n / 10);
    }
  }

  lemma {:induction false} DigitsFit(n: nat, w: nat)
    requires 1 <= w && n < Pow10(w)
    ensures |Digits(n)| <= w
    decreases w
  {
    if n >= 10 {
      assert n / 10 < Pow10(w - 1);
      DigitsFit(n / 10, w - 1);
    }
  }

  lemma {:induction false} ZerosValue(k: nat)
    ensures ValueOf(Zeros(k)) == 0
    decreases k
  {
    if k > 0 {
      assert Zeros(k)[..k - 1] == Zeros(k - 1);
      ZerosValue(k - 1);
    }
  }

  lemma {:induction false} LeadingZerosValue(k: nat, s: string)
    requires AllDigits(s)
    ensures AllDigits(Zeros(k) + s) && ValueOf(Zeros(k) + s) == ValueOf(s)
    decreases |s|
  {
    var z := Zeros(k) + s;
    if s == [] {
      assert z == Zeros(k);
      ZerosValue(k);
    } else {
      assert z[..|z| - 1] == Zeros(k) + s[..|s| - 1];
      LeadingZerosValue(k, s[..|s| - 1]);
    }
  }

  /** A value that fits in `w` digits is padded to exactly `w` digits, and reads back as itself. */
  lemma PadRoundTrip(n: nat, w: nat)
    requires 1 <= w && n < Pow10(w)
    ensures |Pad(n, w)| == w && ValueOf(Pad(n, w)) == n
  {
    DigitsFit(n, w);
    DigitsRoundTrip(n);
    var d := Digits(n);
    if |d| < w {
      LeadingZerosValue(w - |d|, d);
    }
  }

  /** Two fixed-width fields followed by anything: equal strings mean equal fields and equal rests. */
  lemma PeelPad(a: nat, b: nat, w: nat, ra: string, rb: string)
    requires 1 <= w && a < Pow10(w) && b < Pow10(w)
    requires Pad(a, w) + ra == Pad(b, w) + rb
    ensures a == b && ra == rb
  {
    PadRoundTrip(a, w);
    PadRoundTrip(b, w);
    SplitAt(Pad(a, w), ra, Pad(b, w), rb);
  }

  /** `str` is injective on ints. */
  lemma IntToStringInjective(i: int, j: int)
    requires IntToString(i) == IntToString(j)
    ensures i == j
  {
    // the sign is visible in the first character
    assert (IntToString(i)[0] == '-') == (i < 0);
    assert (IntToString(j)[0] == '-') == (j < 0);
    if i < 0 {
      SplitAt("-", Digits(-i), "-", Digits(-j));
      DigitsRoundTrip(-i);
      DigitsRoundTrip(-j);
    } else {
      DigitsRoundTrip(i);
      DigitsRoundTrip(j);
    }
  }

  /** Cancelling equal-length heads of two equal concatenations. */
  lemma SplitAt<T>(a1: seq<T>, b1: seq<T>, a2: seq<T>, b2: seq<T>)
    requires a1 + b1 == a2 + b2 && |a1| == |a2|
    ensures a1 == a2 && b1 == b2
  {
    assert a1 == (a1 + b1)[..|a1|];
    assert a2 == (a2 + b2)[..|a2|];
    assert b1 == (a1 + b1)[|a1|..];
    assert b2 == (a2 + b2)[|a2|..];
  }
}

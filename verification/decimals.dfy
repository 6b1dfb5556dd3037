/** Decimal text: how integers are written, and how a reader takes a decimal apart. */
module Decimals {

  function Digit(d: nat): (c: char)
    requires d < 10
  {
    '0' + d as char
  }

  predicate IsDigit(c: char) { '0' <= c <= '9' }

  predicate AllDigits(s: string) {
    forall i :: 0 <= i < |s| ==> IsDigit(s[i])
  }

  /** `toString` of a non-negative integer. */
  function Decimal(n: nat): (s: string)
    ensures |s| > 0 && AllDigits(s)
    ensures |s| > 1 ==> s[0] != '0'
  {
    if n < 10 then [Digit(n)] else Decimal(n / 10) + [Digit(n % 10)]
  }

  function Pow10(k: nat): (p: nat)
    ensures p > 0
  {
    if k == 0 then 1 else 10 * Pow10(k - 1)
  }

  /** The integer a string of digits stands for. */
  function Value(s: string): nat
    requires AllDigits(s)
  {
    if s == "" then 0 else 10 * Value(s[..|s| - 1]) + (s[|s| - 1] as nat - '0' as nat)
  }

  /** Where the point is, or the end. */
  function Point(text: string): (p: nat)
    ensures p <= |text|
    ensures forall i :: 0 <= i < p ==> text[i] != '.'
    ensures p < |text| ==> text[p] == '.'
  {
    if text == "" || text[0] == '.' then 0 else 1 + Point(text[1..])
  }

  /** Digits, and possibly a point and more digits. */
  predicate IsDecimal(text: string) {
    var p := Point(text);
    && p > 0 && AllDigits(text[..p])
    && (p < |text| ==> p + 1 < |text| && AllDigits(text[p + 1..]))
  }

  /** The digits after the point. */
  function Scale(text: string): nat {
    if Point(text) < |text| then |text| - Point(text) - 1 else 0
  }

  /** The text stands for `Mantissa(text) / 10^Scale(text)`. */
  function Mantissa(text: string): nat
    requires IsDecimal(text)
  {
    var p := Point(text);
    if p < |text| then Value(text[..p] + text[p + 1..]) else Value(text)
  }

  lemma {:induction false} DecimalRoundTrip(n: nat)
    ensures Value(Decimal(n)) == n
  {
    if n >= 10 {
      DecimalRoundTrip(n / 10);
      assert Decimal(n)[..|Decimal(n)| - 1] == Decimal(n / 10);
    }
  }

  lemma {:induction false} DecimalLength(n: nat, k: nat)
    requires k > 0 && n < Pow10(k)
    ensures |Decimal(n)| <= k
  {
    if n >= 10 { DecimalLength(n / 10, k - 1); }
  }

  lemma Regroup(x: nat, y: nat, p: nat)
    ensures 10 * (x * p + y) == x * (10 * p) + 10 * y
  {
  }

  lemma {:induction false} ValueOfConcat(a: string, b: string)
    requires AllDigits(a) && AllDigits(b)
    ensures AllDigits(a + b) && Value(a + b) == Value(a) * Pow10(|b|) + Value(b)
  {
    if b == "" {
      assert a + b == a;
    } else {
      var front := b[..|b| - 1];
      ValueOfConcat(a, front);
      assert (a + b)[..|a + b| - 1] == a + front;
      Regroup(Value(a), Value(front), Pow10(|front|));
    }
  }

  function ZeroDigits(k: nat): (z: string)
    ensures |z| == k && AllDigits(z)
  {
    if k == 0 then "" else ZeroDigits(k - 1) + "0"
  }

  lemma {:induction false} ZeroDigitsAreZero(k: nat)
    ensures Value(ZeroDigits(k)) == 0
  {
    if k > 0 {
      ZeroDigitsAreZero(k - 1);
      assert ZeroDigits(k)[..k - 1] == ZeroDigits(k - 1);
    }
  }

  /** `padStart(width, '0')` */
  function Padded(s: string, width: nat): (r: string)
    requires AllDigits(s)
    ensures AllDigits(r) && (|s| <= width ==> |r| == width)
  {
    if |s| < width then ZeroDigits(width - |s|) + s else s
  }

  lemma PaddingKeepsValue(s: string, width: nat)
    requires AllDigits(s)
    ensures Value(Padded(s, width)) == Value(s)
  {
    if |s| < width {
      ZeroDigitsAreZero(width - |s|);
      ValueOfConcat(ZeroDigits(width - |s|), s);
      NothingTimes(Pow10(|s|));
    }
  }

  lemma NothingTimes(p: nat)
    ensures 0 * p == 0
  {
  }

  /** `replace(/0+$/, '')` */
  function Trimmed(s: string): (r: string)
    requires AllDigits(s)
    ensures AllDigits(r) && |r| <= |s|
    ensures r != "" ==> r[|r| - 1] != '0'
  {
    if s != "" && s[|s| - 1] == '0' then Trimmed(s[..|s| - 1]) else s
  }

  lemma {:induction false} TrimmingScalesValue(s: string)
    requires AllDigits(s)
    ensures Value(s) == Value(Trimmed(s)) * Pow10(|s| - |Trimmed(s)|)
  {
    if s != "" && s[|s| - 1] == '0' {
      TrimmingScalesValue(s[..|s| - 1]);
      Regroup(Value(Trimmed(s)), 0, Pow10(|s| - 1 - |Trimmed(s)|));
    }
  }

  lemma {:induction false} PointAfterDigits(a: string, rest: string)
    requires AllDigits(a) && (rest == "" || rest[0] == '.')
    ensures Point(a + rest) == |a|
  {
    if a == "" {
      assert a + rest == rest;
    } else {
      assert (a + rest)[1..] == a[1..] + rest;
      PointAfterDigits(a[1..], rest);
    }
  }

  lemma {:induction false} Pow10Adds(a: nat, b: nat)
    ensures Pow10(a + b) == Pow10(a) * Pow10(b)
  {
    if a > 0 {
      Pow10Adds(a - 1, b);
      TenTimes(Pow10(a - 1), Pow10(b));
    }
  }

  lemma TenTimes(x: nat, y: nat)
    ensures 10 * (x * y) == 10 * x * y
  {
  }
}

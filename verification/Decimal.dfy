/**
 Decimal printing as done by `%d`, `%0Nd` and `strconv.Itoa`, with the inverse
 that makes it injective.
 */
module Decimal {

  predicate IsDigit(c: char) {
    '0' <= c <= '9'
  }

  predicate AllDigits(s: string) {
    forall i :: 0 <= i < |s| ==> IsDigit(s[i])
  }

  function DigitChar(d: nat): (c: char)
    requires d < 10
    ensures IsDigit(c) && DigitValue(c) == d
  {
    ('0' as int + d) as char
  }

  function DigitValue(c: char): (d: nat)
    requires IsDigit(c)
    ensures d < 10
  {
    c as int - '0' as int
  }

  function Pow10(k: nat): (p: nat)
    ensures p > 0
  {
    if k == 0 then 1 else 10 * Pow10(k - 1)
  }

  lemma {:induction false} Pow10Grows(k: nat, j: nat)
    requires k <= j
    ensures Pow10(k) <= Pow10(j)
    decreases j
  {
    if k < j {
      Pow10Grows(k, j - 1);
    }
  }

  /** `%0<width>d`: at least one digit, padded on the left with zeros. */
  function Pad(n: nat, width: nat): (s: string)
    ensures s != [] && AllDigits(s)
    decreases n, width
  {
    if n < 10 && width <= 1 then [DigitChar(n)]
    else Pad(n / 10, if width > 0 then width - 1 else 0) + [DigitChar(n % 10)]
  }

  /** `%d`, `strconv.Itoa` */
  function Itoa(n: nat): (s: string)
    ensures s != [] && AllDigits(s)
  {
    Pad(n, 1)
  }

  /** The number a string of digits denotes. */
  function Value(s: string): nat
    requires AllDigits(s)
  {
    if s == [] then 0 else 10 * Value(s[..|s| - 1]) + DigitValue(s[|s| - 1])
  }

  lemma {:induction false} PadRoundTrip(n: nat, width: nat)
    ensures Value(Pad(n, width)) == n
    decreases n, width
  {
    if n < 10 && width <= 1 {
      assert Value([DigitChar(n)][..0]) == 0;
    } else {
      var w := if width > 0 then width - 1 else 0;
      PadRoundTrip(n / 10, w);
      var s := Pad(n, width);
      assert s[..|s| - 1] == Pad(n / 10, w);
    }
  }

  /** Printing is injective at any two widths. */
  lemma PadInjective(n: nat, m: nat, v: nat, w: nat)
    ensures Pad(n, v) == Pad(m, w) ==> n == m
  {
    PadRoundTrip(n, v);
    PadRoundTrip(m, w);
  }

  /** A number that fits its field is printed in exactly that many digits. */
  lemma {:induction false} PadWidth(n: nat, width: nat)
    requires width >= 1 && n < Pow10(width)
    ensures |Pad(n, width)| == width
  {
    if n < 10 && width <= 1 {
    } else {
      assert width > 1;
      PadWidth(n / 10, width - 1);
    }
  }
}

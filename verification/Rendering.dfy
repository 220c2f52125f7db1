/**
 Identifiers and state versions are rendered strings, and the program compares
 them as strings. This module renders them the way a minimum-width zero-padded
 decimal format does and proves the rendering injective for every natural
 number, including numbers wider than the padding.
 */
module Rendering {

  function Digit(d: nat): char
    requires d < 10
  {
    '0' + d as char
  }

  function DigitValue(c: char): nat {
    if '0' <= c <= '9' then c as int - '0' as int else 0
  }

  function Decimal(n: nat): string {
    if n < 10 then [Digit(n)] else Decimal(n / 10) + [Digit(n % 10)]
  }

  function Zeros(k: nat): string {
    seq(k, _ => '0')
  }

  /** `{n:0width}`: at least `width` digits, more when the number needs them. */
  function Padded(n: nat, width: nat): string {
    var digits := Decimal(n);
    Zeros(if |digits| < width then width - |digits| else 0) + digits
  }

  function Value(s: string): nat {
    if s == [] then 0 else 10 * Value(s[..|s| - 1]) + DigitValue(s[|s| - 1])
  }

  lemma {:induction false} ValueDecimal(n: nat)
    ensures Value(Decimal(n)) == n
  {
    if n < 10 {
      assert Decimal(n)[..0] == [];
    } else {
      ValueDecimal(n / 10);
      assert Decimal(n)[..|Decimal(n)| - 1] == Decimal(n / 10);
    }
  }

  lemma {:induction false} LeadingZeros(k: nat, s: string)
    ensures Value(Zeros(k) + s) == Value(s)
    decreases |s|, k
  {
    if s != [] {
      assert (Zeros(k) + s)[..k + |s| - 1] == Zeros(k) + s[..|s| - 1];
      LeadingZeros(k, s[..|s| - 1]);
    } else if k > 0 {
      assert (Zeros(k) + s)[..k - 1] == Zeros(k - 1) + s;
      LeadingZeros(k - 1, s);
    }
  }

  /** Parsing undoes rendering at every width. */
  lemma ValuePadded(n: nat, width: nat)
    ensures Value(Padded(n, width)) == n
  {
    var digits := Decimal(n);
    LeadingZeros(if |digits| < width then width - |digits| else 0, digits);
    ValueDecimal(n);
  }

  function Pow10(k: nat): nat {
    if k == 0 then 1 else 10 * Pow10(k - 1)
  }

  ghost predicate AllDigits(s: string) {
    forall i | 0 <= i < |s| :: '0' <= s[i] <= '9'
  }

  /** A decimal rendering has as many digits as the number needs. */
  lemma {:induction false} DecimalWidth(n: nat, k: nat)
    requires k > 0
    ensures |Decimal(n)| <= k <==> n < Pow10(k)
    ensures AllDigits(Decimal(n)) && |Decimal(n)| > 0
  {
    if n >= 10 {
      if k > 1 {
        DecimalWidth(n / 10, k - 1);
      } else {
        DecimalWidth(n / 10, 1);
      }
    } else {
      PowGrows(k);
    }
  }

  lemma {:induction false} PowGrows(k: nat)
    requires k > 0
    ensures Pow10(k) >= 10
  {
    if k > 1 {
      PowGrows(k - 1);
    }
  }

  /**
   A padded rendering is exactly the padding width for every number that fits and
   longer for every other; with its value, that fixes it.
   */
  lemma PaddedWidth(n: nat, width: nat)
    requires width > 0
    ensures AllDigits(Padded(n, width)) && |Padded(n, width)| >= width
    ensures |Padded(n, width)| == width <==> n < Pow10(width)
  {
    DecimalWidth(n, width);
  }

  function Id(prefix: string, n: nat, width: nat): string {
    prefix + "-" + Padded(n, width)
  }

  function ParseId(prefix: string, id: string): nat
    requires |prefix| < |id|
  {
    Value(id[|prefix| + 1..])
  }

  lemma ParseRenderedId(prefix: string, n: nat, width: nat)
    ensures |prefix| < |Id(prefix, n, width)|
    ensures ParseId(prefix, Id(prefix, n, width)) == n
  {
    assert Id(prefix, n, width)[|prefix| + 1..] == Padded(n, width);
    ValuePadded(n, width);
  }

  /** Equal renderings under one prefix come from equal numbers. */
  lemma IdInjective(prefix: string, m: nat, n: nat, width: nat)
    ensures Id(prefix, m, width) == Id(prefix, n, width) <==> m == n
  {
    ParseRenderedId(prefix, m, width);
    ParseRenderedId(prefix, n, width);
  }
}

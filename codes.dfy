/**
 The human-facing secondary codes the controllers generate: a VIN for a car
 (`1M8GDM9A_<counter>`) and a SKU for a dango (`DNG-<yyMM>-<counter>`). The
 counter is printed in decimal, as C# string interpolation prints a
 non-negative `int`; the clock reading is a parameter.
 */
module Codes {

  /** The calendar part of `DateTime.Now` that a SKU uses. */
  type Year = y: int | 1 <= y <= 9999 witness 1
  type Month = m: int | 1 <= m <= 12 witness 1
  datatype LocalDate = LocalDate(year: Year, month: Month)

  predicate IsDigit(c: char) {
    '0' <= c <= '9'
  }

  function DigitChar(d: nat): (c: char)
    requires d < 10
    ensures IsDigit(c) && c as int - '0' as int == d
  {
    (48 + d) as char
  }

  /** The decimal digits of `n`, most significant first, with no leading zeros. */
  function Decimal(n: nat): (r: string)
    ensures 1 <= |r|
    ensures |r| == 1 <==> n < 10
    ensures forall k :: 0 <= k < |r| ==> IsDigit(r[k])
    ensures r[|r| - 1] == DigitChar(n % 10)
  {
    if n < 10 then [DigitChar(n)] else Decimal(n / 10) + [DigitChar(n % 10)]
  }

  /** Two counters print alike only if they are equal. */
  lemma {:induction false} DecimalInjective(a: nat, b: nat)
    requires Decimal(a) == Decimal(b)
    ensures a == b
  {
    var r := Decimal(a);
    assert a % 10 == b % 10 by {
      assert DigitChar(a % 10) == r[|r| - 1] == DigitChar(b % 10);
    }
    if 10 <= a {
      assert Decimal(a / 10) == r[..|r| - 1] == Decimal(b / 10);
      DecimalInjective(a / 10, b / 10);
    }
  }

  /** Two-digit, zero-padded rendering, as in the format strings `yy` and `MM`. */
  function Pad2(n: nat): (r: string)
    requires n < 100
    ensures |r| == 2 && IsDigit(r[0]) && IsDigit(r[1])
    ensures (r[0] as int - '0' as int) * 10 + (r[1] as int - '0' as int) == n
  {
    [DigitChar(n / 10), DigitChar(n % 10)]
  }

  /** `DateTime.Now:yyMM`: the year modulo 100 and the month, two digits each. */
  function YearMonth(d: LocalDate): (r: string)
    ensures |r| == 4
    ensures forall k :: 0 <= k < 4 ==> IsDigit(r[k])
  {
    Pad2(d.year % 100) + Pad2(d.month)
  }

  const VinPrefix: string := "1M8GDM9A_"
  const SkuPrefix: string := "DNG-"

  /** `GenerateVin`: the fixed prefix followed by the counter. */
  function Vin(counter: nat): (r: string)
    ensures |r| > |VinPrefix| && r[..|VinPrefix|] == VinPrefix
  {
    VinPrefix + Decimal(counter)
  }

  /** `GenerateSku`: the fixed prefix, the `yyMM` date fragment, a dash and the counter. */
  function Sku(now: LocalDate, counter: nat): (r: string)
    ensures |r| > 9 && r[..|SkuPrefix|] == SkuPrefix && r[8] == '-'
    ensures r[4..8] == YearMonth(now)
  {
    SkuPrefix + YearMonth(now) + "-" + Decimal(counter)
  }

  /** Generated VINs from different counter values differ. */
  lemma VinInjective(a: nat, b: nat)
    requires Vin(a) == Vin(b)
    ensures a == b
  {
    assert Decimal(a) == Vin(a)[|VinPrefix|..] == Vin(b)[|VinPrefix|..] == Decimal(b);
    DecimalInjective(a, b);
  }

  /**
   Generated SKUs from different counter values differ, whatever month each
   was generated in: the date fragment always has four characters, so the
   counter part starts at the same position.
   */
  lemma SkuInjective(d1: LocalDate, a: nat, d2: LocalDate, b: nat)
    requires Sku(d1, a) == Sku(d2, b)
    ensures a == b
  {
    assert Decimal(a) == Sku(d1, a)[9..] == Sku(d2, b)[9..] == Decimal(b);
    DecimalInjective(a, b);
  }
}

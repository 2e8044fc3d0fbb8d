/**
 * Decimal text of integers: the digit-run parse the tokenizer applies to a
 * number lexeme (`str::parse::<i64>` on ASCII digits) and the `{}` formatting
 * that token display and literal code generation apply to an `i64`.
 */
module Decimal {

  /** Largest value of Rust's `i64`. */
  const I64Max: int := 0x7fff_ffff_ffff_ffff

  /** Rust's `i64`. */
  newtype i64 = x: int | -0x8000_0000_0000_0000 <= x <= 0x7fff_ffff_ffff_ffff

  /** ASCII digit (the model reads `\d` as `[0-9]`). */
  predicate IsDigit(c: char) {
    '0' <= c <= '9'
  }

  predicate AllDigits(s: string) {
    forall i :: 0 <= i < |s| ==> IsDigit(s[i])
  }

  function DigitValue(c: char): (d: nat)
    requires IsDigit(c)
    ensures d < 10
  {
    c as int - '0' as int
  }

  function DigitChar(d: nat): (c: char)
    requires d < 10
    ensures IsDigit(c) && DigitValue(c) == d
  {
    ('0' as int + d) as char
  }

  /** The value of a run of decimal digits, most significant first. */
  function DigitsValue(s: string): nat
    requires AllDigits(s)
    decreases |s|
  {
    if s == [] then 0 else 10 * DigitsValue(s[..|s| - 1]) + DigitValue(s[|s| - 1])
  }

  /** Decimal text of a natural number, without leading zeros. */
  function NatText(n: nat): (s: string)
    ensures |s| > 0 && AllDigits(s)
    ensures s[0] == '0' ==> n == 0 && |s| == 1
    ensures DigitsValue(s) == n
    decreases n
  {
    if n < 10 then [DigitChar(n)]
    else
      var prefix := NatText(n / 10);
      var s := prefix + [DigitChar(n % 10)];
      assert s[..|s| - 1] == prefix;
      s
  }

  /** Decimal text of an integer, with a leading `-` when negative. */
  function IntText(n: int): (s: string)
    ensures IsSignedDecimal(s)
  {
    if n < 0 then "-" + NatText(-n) else NatText(n)
  }

  predicate IsSignedDecimal(s: string) {
    if |s| > 0 && s[0] == '-' then |s| > 1 && AllDigits(s[1..]) else |s| > 0 && AllDigits(s)
  }

  /** Reads back a signed decimal text. */
  function SignedValue(s: string): int
    requires IsSignedDecimal(s)
  {
    if s[0] == '-' then -(DigitsValue(s[1..]) as int) else DigitsValue(s)
  }

  /** `IntText` is undone by `SignedValue`, so distinct integers print differently. */
  lemma IntTextRoundTrip(n: int)
    ensures SignedValue(IntText(n)) == n
  {
    if n < 0 {
      assert IntText(n)[1..] == NatText(-n);
    }
  }

  lemma IntTextInjective(m: int, n: int)
    requires IntText(m) == IntText(n)
    ensures m == n
  {
    IntTextRoundTrip(m);
    IntTextRoundTrip(n);
  }

  /** A run of at least twenty digits that does not start with `0` exceeds `i64::MAX`. */
  lemma {:induction false} LongRunTooLarge(s: string)
    requires AllDigits(s) && |s| >= 20 && s[0] != '0'
    ensures DigitsValue(s) > I64Max
  {
    LeadingDigitBound(s);
    Power10Bound(|s| - 1);
  }

  /** Ten to the power `k`. */
  function Pow10(k: nat): (p: nat)
    ensures p >= 1
  {
    if k == 0 then 1 else 10 * Pow10(k - 1)
  }

  lemma {:induction false} Power10Bound(k: nat)
    requires k >= 19
    ensures Pow10(k) > I64Max
  {
    if k == 19 {
      assert Pow10(19) == 10_000_000_000_000_000_000 by {
        assert Pow10(10) == 10_000_000_000;
      }
    } else {
      Power10Bound(k - 1);
    }
  }

  /** A digit run whose first digit is not zero is at least `10^(|s|-1)`. */
  lemma {:induction false} LeadingDigitBound(s: string)
    requires AllDigits(s) && |s| >= 1 && s[0] != '0'
    ensures DigitsValue(s) >= Pow10(|s| - 1)
  {
    if |s| > 1 {
      var prefix := s[..|s| - 1];
      assert prefix[0] == s[0];
      LeadingDigitBound(prefix);
    }
  }
}

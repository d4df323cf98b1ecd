/** Decimal numerals as Python reads and writes them. */
module Digits {
  import opened Wrappers

  /** The zeros of the Unicode decimal digits (category Nd, Unicode 15.0). Each starts a block of
      ten consecutive characters, and both `\d` and `int` accept all of them. */
  const ZEROS: seq<int> := BASIC_ZEROS + OTHER_ZEROS

  const BASIC_ZEROS: seq<int> := [
    0x30, 0x660, 0x6f0, 0x7c0, 0x966, 0x9e6, 0xa66, 0xae6, 0xb66, 0xbe6, 0xc66, 0xce6, 0xd66, 0xde6, 0xe50, 0xed0,
    0xf20, 0x1040, 0x1090, 0x17e0, 0x1810, 0x1946, 0x19d0, 0x1a80, 0x1a90, 0x1b50, 0x1bb0, 0x1c40, 0x1c50, 0xa620,
    0xa8d0, 0xa900, 0xa9d0, 0xa9f0, 0xaa50, 0xabf0, 0xff10]

  const OTHER_ZEROS: seq<int> := [
    0x104a0, 0x10d30, 0x11066, 0x110f0, 0x11136, 0x111d0, 0x112f0, 0x11450, 0x114d0, 0x11650, 0x116c0, 0x11730, 0x118e0, 0x11950, 0x11c50, 0x11d50, 0x11da0, 0x11f50,
    0x16a60, 0x16ac0, 0x16b50, 0x1d7ce, 0x1d7d8, 0x1d7e2, 0x1d7ec, 0x1d7f6, 0x1e140, 0x1e2f0, 0x1e4f0, 0x1e950, 0x1fbf0]

  function BlockValue(code: int, i: nat): (v: Option<nat>)
    ensures v.Some? ==> v.value <= 9
    decreases |ZEROS| - i
  {
    if i >= |ZEROS| then None
    else if ZEROS[i] <= code <= ZEROS[i] + 9 then Some(code - ZEROS[i])
    else BlockValue(code, i + 1)
  }

  predicate IsDigit(c: char) {
    BlockValue(c as int, 0).Some?
  }

  function DigitValue(c: char): (v: nat)
    requires IsDigit(c)
    ensures v <= 9
  {
    BlockValue(c as int, 0).value
  }

  /** The whitespace that `\s` matches and `str.strip` removes. */
  predicate IsSpace(c: char) {
    var n := c as int;
    || 0x9 <= n <= 0xd || 0x1c <= n <= 0x20 || n == 0x85 || n == 0xa0 || n == 0x1680 || 0x2000 <= n <= 0x200a
    || n == 0x2028 || n == 0x2029 || n == 0x202f || n == 0x205f || n == 0x3000
  }

  lemma Gaps()
    ensures forall k | 0 <= k < |ZEROS| ::
              || ZEROS[k] == 0x30 || 0x660 <= ZEROS[k] <= 0x1090 || 0x17e0 <= ZEROS[k] <= 0x1c50 || 0xa620 <= ZEROS[k]
  {
    forall k | 0 <= k < |ZEROS|
      ensures ZEROS[k] == if k < |BASIC_ZEROS| then BASIC_ZEROS[k] else OTHER_ZEROS[k - |BASIC_ZEROS|]
    {
    }
  }

  /** No block of digits touches the given range. */
  lemma NoDigitsIn(code: int, low: int, high: int, i: nat)
    requires low <= code <= high
    requires forall k | i <= k < |ZEROS| :: ZEROS[k] + 9 < low || high < ZEROS[k]
    ensures BlockValue(code, i).None?
    decreases |ZEROS| - i
  {
    if i < |ZEROS| {
      NoDigitsIn(code, low, high, i + 1);
    }
  }

  /** Digits, whitespace, commas and hyphens are four disjoint kinds of character. */
  lemma KindsAreDisjoint(c: char)
    ensures IsSpace(c) ==> !IsDigit(c) && c != ',' && c != '-'
    ensures !IsDigit(',') && !IsDigit('-')
  {
    Gaps();
    NoDigitsIn(',' as int, 0x0, 0x2f, 0);
    NoDigitsIn('-' as int, 0x0, 0x2f, 0);
    var n := c as int;
    if n <= 0x2f {
      NoDigitsIn(n, 0x0, 0x2f, 0);
    } else if 0x3a <= n <= 0x65f {
      NoDigitsIn(n, 0x3a, 0x65f, 0);
    } else if n == 0x1680 {
      NoDigitsIn(n, 0x1680, 0x1680, 0);
    } else if 0x2000 <= n <= 0x3000 {
      NoDigitsIn(n, 0x2000, 0x3000, 0);
    }
  }

  predicate AllDigits(s: string) {
    forall i | 0 <= i < |s| :: IsDigit(s[i])
  }

  /** The number a numeral denotes. */
  function Value(s: string): nat
    requires AllDigits(s)
  {
    if s == [] then 0 else 10 * Value(s[..|s| - 1]) + DigitValue(s[|s| - 1])
  }

  /** `int` refuses numerals of more digits than this. */
  const MAX_INT_DIGITS := 4300

  /** `int(s)` of a numeral: its value, or `None` where Python raises `ValueError`. */
  function ParseInt(s: string): Option<nat>
    requires AllDigits(s)
  {
    if |s| > MAX_INT_DIGITS then None else Some(Value(s))
  }

  function AsciiDigit(d: nat): (c: char)
    requires d <= 9
  {
    '0' + d as char
  }

  /** `str(n)`: the shortest ASCII numeral of `n`. */
  function Numeral(n: nat): (s: string)
    ensures s != []
  {
    if n <= 9 then [AsciiDigit(n)] else Numeral(n / 10) + [AsciiDigit(n % 10)]
  }

  lemma AsciiDigitIsDigit(d: nat)
    requires d <= 9
    ensures IsDigit(AsciiDigit(d)) && DigitValue(AsciiDigit(d)) == d
  {
    assert ZEROS[0] == BASIC_ZEROS[0] == 0x30;
    assert AsciiDigit(d) as int == 0x30 + d;
  }

  /** Reading what was written gives the number back. */
  lemma {:induction false} NumeralRoundTrip(n: nat)
    ensures AllDigits(Numeral(n)) && Value(Numeral(n)) == n
  {
    if n <= 9 {
      AsciiDigitIsDigit(n);
    } else {
      NumeralRoundTrip(n / 10);
      AsciiDigitIsDigit(n % 10);
      assert Numeral(n)[..|Numeral(n)| - 1] == Numeral(n / 10);
    }
  }

  lemma NumeralIsInjective(m: nat, n: nat)
    requires Numeral(m) == Numeral(n)
    ensures m == n
  {
    NumeralRoundTrip(m);
    NumeralRoundTrip(n);
  }
}

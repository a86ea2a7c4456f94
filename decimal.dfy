/** Decimal renderings of integers, as Python's `str(int)` writes them, and the value of a run of
    decimal digits. */
module Decimal {

  predicate IsDigit(c: char) {
    '0' <= c <= '9'
  }

  predicate AllDigits(s: string) {
    forall i :: 0 <= i < |s| ==> IsDigit(s[i])
  }

  /** A run of digits holds no character that is not a digit. */
  lemma OnlyDigits(s: string, c: char)
    requires AllDigits(s) && !IsDigit(c)
    ensures c !in s
  {
  }

  function DigitChar(d: nat): (c: char)
    requires d < 10
    ensures IsDigit(c)
  {
    ('0' as int + d) as char
  }

  function DigitValue(c: char): (d: nat)
    requires IsDigit(c)
    ensures d < 10 && DigitChar(d) == c
  {
    c as int - '0' as int
  }

  /** The number a non-empty or empty run of decimal digits denotes (leading zeros allowed). */
  function DigitsValue(s: string): nat
    requires AllDigits(s)
  {
    if s == [] then 0 else DigitsValue(s[..|s| - 1]) * 10 + DigitValue(s[|s| - 1])
  }

  /** `str(n)` for `n >= 0`: at least one digit, no leading zero unless `n` is zero. */
  function NatToString(n: nat): (s: string)
    ensures |s| >= 1 && AllDigits(s)
    ensures s[0] == '0' ==> n == 0
    decreases n
  {
    if n < 10 then [DigitChar(n)] else NatToString(n / 10) + [DigitChar(n % 10)]
  }

  /** Reading the digits back yields the number: `int(str(n)) == n`. */
  lemma {:induction false} NatToStringValue(n: nat)
    ensures DigitsValue(NatToString(n)) == n
    decreases n
  {
    var s := NatToString(n);
    if n >= 10 {
      NatToStringValue(n / 10);
      assert s[..|s| - 1] == NatToString(n / 10);
    }
  }

  /** Distinct numbers have distinct renderings. */
  lemma NatToStringInjective(m: nat, n: nat)
    requires NatToString(m) == NatToString(n)
    ensures m == n
  {
    NatToStringValue(m);
    NatToStringValue(n);
  }

  /** `str(i)` for any integer: a minus sign before the digits of `-i` when `i` is negative. */
  function IntToString(i: int): (s: string)
    ensures |s| >= 1
    ensures i < 0 <==> s[0] == '-'
    ensures forall k :: 0 < k < |s| ==> IsDigit(s[k])
  {
    if i < 0 then "-" + NatToString(-i) else NatToString(i)
  }

  /** `n`'s last `count` decimal digits, zero-padded on the left to exactly `count` of them. */
  function LastDigits(n: nat, count: nat): (s: string)
    ensures |s| == count && AllDigits(s)
  {
    if count == 0 then [] else LastDigits(n / 10, count - 1) + [DigitChar(n % 10)]
  }

  function Pow10(k: nat): (p: nat)
    ensures p >= 1
  {
    if k == 0 then 1 else 10 * Pow10(k - 1)
  }

  /** The zero-padded digits denote `n` modulo `10^count`. */
  lemma {:induction false} LastDigitsValue(n: nat, count: nat)
    ensures DigitsValue(LastDigits(n, count)) == n % Pow10(count)
  {
    if count > 0 {
      var s := LastDigits(n, count);
      LastDigitsValue(n / 10, count - 1);
      assert s[..|s| - 1] == LastDigits(n / 10, count - 1);
      ModSplit(n, Pow10(count - 1));
    }
  }

  /** Dropping the last digit and taking the rest modulo `p`, then putting the digit back, is
      taking `n` modulo `10 * p`. */
  lemma ModSplit(n: nat, p: nat)
    requires p >= 1
    ensures (n / 10 % p) * 10 + n % 10 == n % (10 * p)
  {
    var q, r0 := n / 10, n % 10;
    var q2, r1 := q / p, q % p;
    assert q == q2 * p + r1;
    assert n == q2 * (10 * p) + (r1 * 10 + r0);
    DivUnique(n, 10 * p, q2, r1 * 10 + r0);
  }

  /** `a * m` grows with `a`. */
  lemma {:induction false} MulMonotone(a: nat, b: nat, m: nat)
    requires a <= b
    ensures a * m <= b * m
    decreases b - a
  {
    if a < b {
      MulMonotone(a, b - 1, m);
      assert b * m == (b - 1) * m + m;
    }
  }

  /** Euclidean division is determined by quotient and remainder. */
  lemma DivUnique(x: int, y: int, q: int, r: int)
    requires y > 0 && 0 <= r < y && x == q * y + r
    ensures x / y == q && x % y == r
  {
    var q', r' := x / y, x % y;
    assert x == q' * y + r';
    if q' > q {
      assert (q' - q) * y == r - r';
      MulMonotone(1, q' - q, y);
    } else if q' < q {
      assert (q - q') * y == r' - r;
      MulMonotone(1, q - q', y);
    }
  }
}

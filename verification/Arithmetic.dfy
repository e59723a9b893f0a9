/** Integer facts the keeper's fixed-point arithmetic rests on.

    Python's `//` floors. Every divisor in the modelled code is positive, where
    Dafny's `/` floors as well, so `/` is used throughout.
 */
module Arithmetic {

  const BPS := 10_000
  const BPS_TO_WAD := 100_000_000_000_000
  const WAD := 1_000_000_000_000_000_000
  const FLASH_PREMIUM_BPS := 5

  datatype Option<+T> = None | Some(value: T)

  function Max(a: int, b: int): int { if a >= b then a else b }

  function Min(a: int, b: int): int { if a <= b then a else b }

  function Pow10(n: nat): (p: int)
    ensures p >= 1
  {
    if n == 0 then 1 else 10 * Pow10(n - 1)
  }

  /** Python's `round`: nearest integer, ties to even. */
  function Round(x: real): int {
    var f := x.Floor;
    var part := x - f as real;
    if part < 0.5 || (part == 0.5 && f % 2 == 0) then f else f + 1
  }

  /** Python's `int`: truncation towards zero. */
  function Trunc(x: real): int {
    if x >= 0.0 then x.Floor else -((-x).Floor)
  }

  lemma TruncMonotone(x: real, y: real)
    requires x <= y
    ensures Trunc(x) <= Trunc(y)
  {
  }

  /** What a flash loan of `repay` costs to return. */
  function WithFlashPremium(repay: int): int {
    repay + repay * FLASH_PREMIUM_BPS / BPS
  }

  /** The flash premium is the whole number of units in five basis points of the repayment. */
  lemma FlashPremiumIs(repay: int, premium: int)
    ensures WithFlashPremium(repay) == repay + premium
            <==> BPS * premium <= 5 * repay < BPS * (premium + 1)
  {
    DivIs(repay * FLASH_PREMIUM_BPS, BPS, premium);
  }

  /** Rounding reaches `n` from half a unit below it on, from exactly there only if `n` is even. */
  lemma RoundAtLeast(x: real, n: int)
    ensures Round(x) >= n <==> x > n as real - 0.5 || (x == n as real - 0.5 && n % 2 == 0)
  {
    var f := x.Floor;
    if f >= n {
    } else if f == n - 1 {
      assert f as real == n as real - 1.0;
    } else {
      assert f as real + 1.0 <= n as real - 1.0;
    }
  }

  /** `-(-a // b)`: division rounded towards positive infinity. */
  function CeilDiv(a: int, b: int): int
    requires b > 0
  {
    -((-a) / b)
  }

  lemma MulMonotone(a: int, b: int, c: int)
    requires a <= b && c >= 0
    ensures a * c <= b * c && c * a <= c * b
  {
    assert (b - a) * c >= 0;
  }

  lemma MulNonNegative(a: int, b: int)
    requires a >= 0 && b >= 0
    ensures a * b >= 0
  {
  }

  lemma DivLeast(a: int, b: int, x: int)
    requires b > 0
    ensures x <= a / b <==> x * b <= a
  {
    var d := a / b;
    assert d * b <= a < d * b + b;
    if x <= d {
      assert x * b <= d * b;
    } else {
      assert (d + 1) * b <= x * b;
    }
  }

  /** The quotient is the unique integer whose multiple brackets the dividend. */
  lemma DivIs(a: int, b: int, q: int)
    requires b > 0
    ensures q == a / b <==> q * b <= a < q * b + b
  {
    DivLeast(a, b, q);
    DivLeast(a, b, q + 1);
    assert (q + 1) * b == q * b + b;
  }

  lemma CeilLeast(a: int, b: int, x: int)
    requires b > 0
    ensures CeilDiv(a, b) <= x <==> a <= x * b
  {
    DivLeast(-a, b, -x);
    assert (-x) * b == -(x * b);
  }

  lemma DivScales(k: int, a: int, b: int)
    requires k > 0 && b > 0
    ensures k * b > 0 && (k * a) / (k * b) == a / b
  {
    var q := a / b;
    assert q * b <= a < q * b + b;
    assert k * (q * b) <= k * a < k * (q * b + b);
    assert q * (k * b) == k * (q * b);
    DivIs(k * a, k * b, q);
  }

  lemma DivMonotone(a: int, a': int, b: int)
    requires b > 0 && a <= a'
    ensures a / b <= a' / b
  {
    DivLeast(a', b, a / b);
    assert (a / b) * b <= a;
  }

  /** Comparing two fractions by cross-multiplication orders their floors. */
  lemma DivCrossMonotone(a: int, b: int, a': int, b': int)
    requires b > 0 && b' > 0 && a * b' <= a' * b
    ensures a / b <= a' / b'
  {
    var q := a / b;
    assert q * b <= a;
    assert (q * b) * b' <= a * b';
    assert (q * b') * b == (q * b) * b';
    assert (q * b') * b <= a' * b;
    assert q * b' <= a';
    DivLeast(a', b', q);
  }

  lemma CeilMonotone(a: int, a': int, b: int)
    requires b > 0 && a <= a'
    ensures CeilDiv(a, b) <= CeilDiv(a', b)
  {
    DivMonotone(-a', -a, b);
  }
}

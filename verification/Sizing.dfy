/** The closed-form minimum repayment (backend/app/core/sizing.py).

    Base-currency amounts carry 8 decimals, ratios are basis points, and the
    code works in WAD-scaled integers with floor division.
 */
module Sizing {
  import opened Arithmetic

  const DEFAULT_BUNDLED_COST_BPS := 100

  datatype SizingResult = SizingResult(
    repayAmount: int, deltaBase: int, hfTargetBps: int, feasible: bool, reason: Option<string>)

  /** What `getUserAccountData` reports: base-currency totals and the liquidation threshold. */
  datatype Position = Position(collateral: int, debt: int, ltBps: int)

  predicate Plausible(p: Position) {
    p.collateral >= 0 && p.debt >= 0 && p.ltBps >= 0
  }

  function SizeRepay(p: Position, targetBps: int, priceBase: int, decimals: nat,
                     costBps: int, overshootBps: int): SizingResult
  {
    var targetWad := targetBps * BPS_TO_WAD;
    var ltWad := p.ltBps * BPS_TO_WAD;
    var onePlusFWad := WAD + costBps * BPS_TO_WAD;
    var num := targetWad * p.debt - p.collateral * ltWad;
    var denom := targetWad - (onePlusFWad * ltWad) / WAD;
    if denom <= 0 then
      SizingResult(0, 0, targetBps, false,
                   Some("denominator <= 0: target unreachable via repayment at this LT/cost"))
    else if num <= 0 then
      SizingResult(0, 0, targetBps, true, Some("already at/above target: no repayment required"))
    else
      var deltaBase := num / denom;
      if priceBase <= 0 then
        SizingResult(0, deltaBase, targetBps, false, Some("debt price unavailable"))
      else
        var tokens := CeilDiv(deltaBase * Pow10(decimals), priceBase);
        var repay := if overshootBps != 0 then tokens * (BPS + overshootBps) / BPS else tokens;
        SizingResult(repay, deltaBase, targetBps, true, None)
  }

  /** An overshoot adds its share of the sized tokens, rounded down; the default adds nothing. */
  lemma OvershootIs(p: Position, targetBps: int, priceBase: int, decimals: nat, costBps: int, overshootBps: int)
    ensures var r := SizeRepay(p, targetBps, priceBase, decimals, costBps, 0).repayAmount;
            var o := SizeRepay(p, targetBps, priceBase, decimals, costBps, overshootBps).repayAmount;
            BPS * o <= r * (BPS + overshootBps) < BPS * (o + 1)
  {
    var r := SizeRepay(p, targetBps, priceBase, decimals, costBps, 0).repayAmount;
    DivIs(r * (BPS + overshootBps), BPS, r * (BPS + overshootBps) / BPS);
  }

  // ---- What the numbers mean --------------------------------------------------------------

  /** Scaled shortfall `t*D - l*C`: positive exactly when the health factor is under the target. */
  function Shortfall(p: Position, targetBps: int): int {
    targetBps * p.debt - p.ltBps * p.collateral
  }

  /** Scaled health gained per unit repaid, `10^4*t - (10^4+f)*l`. */
  function Gain(ltBps: int, targetBps: int, costBps: int): int {
    BPS * targetBps - (BPS + costBps) * ltBps
  }

  /** Repaying `x` releases `x*(1+f)` of collateral. */
  function Remaining(p: Position, costBps: int, x: real): (real, real) {
    (p.collateral as real - x * (BPS + costBps) as real / BPS as real, p.debt as real - x)
  }

  /** Aave's health factor, as a plain ratio. */
  function HealthFactor(collateral: real, debt: real, ltBps: int): real
    requires debt > 0.0
  {
    collateral * ltBps as real / BPS as real / debt
  }

  /** Repaying `x` base units, `x` a fraction `n / s`, lifts the position to the target. */
  predicate Reaches(p: Position, targetBps: int, costBps: int, n: int, s: int) {
    n * Gain(p.ltBps, targetBps, costBps) >= BPS * Shortfall(p, targetBps) * s
  }

  /** `Reaches` is the statement a lender would make: while debt remains, the health factor of
      the position left behind is at least the target. */
  lemma ReachesIsHealth(p: Position, targetBps: int, costBps: int, n: int, s: int)
    requires s > 0 && n < p.debt * s
    ensures var (c, d) := Remaining(p, costBps, n as real / s as real);
            && d > 0.0
            && (Reaches(p, targetBps, costBps, n, s) <==>
                HealthFactor(c, d, p.ltBps) >= targetBps as real / BPS as real)
  {
  }

  // ---- The WAD computation loses nothing before its last division --------------------------

  lemma WadIsExact(p: Position, targetBps: int, costBps: int)
    ensures targetBps * BPS_TO_WAD * p.debt - p.collateral * (p.ltBps * BPS_TO_WAD)
         == BPS_TO_WAD * Shortfall(p, targetBps)
    ensures targetBps * BPS_TO_WAD - ((WAD + costBps * BPS_TO_WAD) * (p.ltBps * BPS_TO_WAD)) / WAD
         == 10_000_000_000 * Gain(p.ltBps, targetBps, costBps)
  {
  }

  /** The base repayment is one exact floor, and the sizing is feasible exactly when each unit
      repaid helps and a needed repayment can be priced. */
  lemma SizeRepayExact(p: Position, targetBps: int, priceBase: int, decimals: nat, costBps: int, overshootBps: int)
    ensures var r := SizeRepay(p, targetBps, priceBase, decimals, costBps, overshootBps);
            var need, gain := Shortfall(p, targetBps), Gain(p.ltBps, targetBps, costBps);
            && (r.feasible <==> gain > 0 && (need <= 0 || priceBase > 0))
            && r.deltaBase == (if gain > 0 && need > 0 then BPS * need / gain else 0)
            && r.hfTargetBps == targetBps && (r.reason.None? <==> r.feasible && need > 0)
  {
    WadIsExact(p, targetBps, costBps);
    var need, gain := Shortfall(p, targetBps), Gain(p.ltBps, targetBps, costBps);
    if gain > 0 {
      DivScales(10_000_000_000, BPS * need, gain);
      assert BPS_TO_WAD * need == 10_000_000_000 * (BPS * need);
    }
  }

  /** The sized base amount, wherever each unit repaid helps. */
  function Delta(p: Position, targetBps: int, costBps: int): int
    requires Gain(p.ltBps, targetBps, costBps) > 0
  {
    BPS * Shortfall(p, targetBps) / Gain(p.ltBps, targetBps, costBps)
  }

  /** The base amount over all inputs: nothing is sized when nothing is needed or nothing helps. */
  function Base(p: Position, targetBps: int, costBps: int): int {
    if Gain(p.ltBps, targetBps, costBps) > 0 && Shortfall(p, targetBps) > 0
    then Delta(p, targetBps, costBps) else 0
  }

  function Tokens(delta: int, priceBase: int, decimals: nat, overshootBps: int): int
    requires priceBase > 0
  {
    var tokens := CeilDiv(delta * Pow10(decimals), priceBase);
    if overshootBps != 0 then tokens * (BPS + overshootBps) / BPS else tokens
  }

  lemma SizeRepayIs(p: Position, targetBps: int, priceBase: int, decimals: nat, costBps: int, overshootBps: int)
    ensures var r := SizeRepay(p, targetBps, priceBase, decimals, costBps, overshootBps);
            var base := Base(p, targetBps, costBps);
            && r.deltaBase == base
            && r.repayAmount == (if priceBase > 0 then Tokens(base, priceBase, decimals, overshootBps) else 0)
  {
    SizeRepayExact(p, targetBps, priceBase, decimals, costBps, overshootBps);
    WadIsExact(p, targetBps, costBps);
  }

  /** Anything under the sized amount misses the target; one base unit more always reaches it;
      the sized amount itself reaches it exactly when the division leaves no remainder. */
  lemma DeltaIsTight(p: Position, targetBps: int, costBps: int, x: int)
    requires Gain(p.ltBps, targetBps, costBps) > 0
    ensures var delta := Delta(p, targetBps, costBps);
            && (x < delta ==> !Reaches(p, targetBps, costBps, x, 1))
            && (x > delta ==> Reaches(p, targetBps, costBps, x, 1))
            && (Reaches(p, targetBps, costBps, delta, 1) <==>
                BPS * Shortfall(p, targetBps) % Gain(p.ltBps, targetBps, costBps) == 0)
  {
    TightQuotient(BPS * Shortfall(p, targetBps), Gain(p.ltBps, targetBps, costBps), x);
  }

  lemma TightQuotient(need: int, gain: int, x: int)
    requires gain > 0
    ensures x < need / gain ==> x * gain < need
    ensures x > need / gain ==> x * gain >= need
    ensures need / gain * gain >= need <==> need % gain == 0
  {
    var q := need / gain;
    assert need == q * gain + need % gain;
    if x < q {
      MulMonotone(x + 1, q, gain);
    } else if x > q {
      MulMonotone(q + 1, x, gain);
    }
  }

  // ---- Minimal in token units, and worth what the gate says it is --------------------------

  /** Without overshoot the token amount is the least one worth at least the base amount. */
  lemma TokensAreLeast(p: Position, targetBps: int, priceBase: int, decimals: nat, costBps: int, tokens: int)
    requires priceBase > 0
    requires Gain(p.ltBps, targetBps, costBps) > 0 && Shortfall(p, targetBps) > 0
    ensures var r := SizeRepay(p, targetBps, priceBase, decimals, costBps, 0);
            r.repayAmount <= tokens <==> r.deltaBase * Pow10(decimals) <= tokens * priceBase
  {
    SizeRepayIs(p, targetBps, priceBase, decimals, costBps, 0);
    CeilLeast(Delta(p, targetBps, costBps) * Pow10(decimals), priceBase, tokens);
  }

  /** The gate's valuation of a token amount (backend/app/agent/policy.py). */
  function RepayValueBase(repayAmount: int, priceBase: int, decimals: int): int {
    if decimals < 0 || priceBase <= 0 then 0 else repayAmount * priceBase / Pow10(decimals)
  }

  /** What cannot be priced is worth nothing; otherwise the value is the whole base units in it. */
  lemma ValueOf(repayAmount: int, priceBase: int, decimals: int, value: int)
    ensures decimals < 0 || priceBase <= 0 ==> RepayValueBase(repayAmount, priceBase, decimals) == 0
    ensures decimals >= 0 && priceBase > 0 ==>
              (RepayValueBase(repayAmount, priceBase, decimals) == value <==>
                value * Pow10(decimals) <= repayAmount * priceBase < value * Pow10(decimals) + Pow10(decimals))
  {
    if decimals >= 0 && priceBase > 0 { DivIs(repayAmount * priceBase, Pow10(decimals), value); }
  }

  /** Up into tokens, down into base: the value comes back no smaller, and larger by less than one
      token's worth. It comes back exactly whenever a token is worth at most one base unit. */
  lemma ValueRoundTrip(p: Position, targetBps: int, priceBase: int, decimals: nat, costBps: int)
    requires priceBase > 0
    requires Gain(p.ltBps, targetBps, costBps) > 0 && Shortfall(p, targetBps) > 0
    ensures var r := SizeRepay(p, targetBps, priceBase, decimals, costBps, 0);
            var value := RepayValueBase(r.repayAmount, priceBase, decimals);
            && r.deltaBase <= value <= r.deltaBase + (priceBase - 1) / Pow10(decimals)
            && (priceBase <= Pow10(decimals) ==> value == r.deltaBase)
  {
    SizeRepayIs(p, targetBps, priceBase, decimals, costBps, 0);
    CeilThenFloor(Delta(p, targetBps, costBps), Pow10(decimals), priceBase);
  }

  lemma CeilThenFloor(delta: int, s: int, price: int)
    requires s > 0 && price > 0
    ensures delta <= CeilDiv(delta * s, price) * price / s <= delta + (price - 1) / s
    ensures price <= s ==> (price - 1) / s == 0
  {
    var r := CeilDiv(delta * s, price);
    CeilLeast(delta * s, price, r);
    CeilLeast(delta * s, price, r - 1);
    assert (r - 1) * price == r * price - price;
    DivLeast(r * price, s, delta);
    DivMonotone(r * price, delta * s + (price - 1), s);
    DivShift(price - 1, s, delta);
    DivIs(price - 1, s, 0);
  }

  lemma DivShift(a: int, b: int, k: int)
    requires b > 0
    ensures (k * b + a) / b == k + a / b
  {
    var q := a / b;
    assert q * b <= a < q * b + b;
    assert (k + q) * b == k * b + q * b;
    DivIs(k * b + a, b, k + q);
  }

  /** What rounding the base amount up into tokens adds back, in scaled base units. */
  function AddedBack(need: int, gain: int, priceBase: int, s: int): int
    requires gain > 0 && priceBase > 0
  {
    -(need / gain * s) % priceBase
  }

  /** The sized tokens reach the target exactly when rounding up into tokens adds back what the
      base floor cut off; the condition reads the account, the target and the price alone. */
  lemma SizedTokensReach(p: Position, targetBps: int, priceBase: int, decimals: nat, costBps: int)
    requires priceBase > 0
    requires Gain(p.ltBps, targetBps, costBps) > 0 && Shortfall(p, targetBps) > 0
    ensures var r, s := SizeRepay(p, targetBps, priceBase, decimals, costBps, 0), Pow10(decimals);
            var need, gain := BPS * Shortfall(p, targetBps), Gain(p.ltBps, targetBps, costBps);
            Reaches(p, targetBps, costBps, r.repayAmount * priceBase, s)
            <==> AddedBack(need, gain, priceBase, s) * gain >= need % gain * s
  {
    SizeRepayIs(p, targetBps, priceBase, decimals, costBps, 0);
    var s, delta := Pow10(decimals), Delta(p, targetBps, costBps);
    CeilAdds(delta * s, priceBase);
    CutAgainstAdded(BPS * Shortfall(p, targetBps), Gain(p.ltBps, targetBps, costBps), s,
                    CeilDiv(delta * s, priceBase) * priceBase);
  }

  /** Where one base unit buys a whole number of token units nothing is added back, so the tokens reach
      the target exactly when the base division leaves no remainder. */
  lemma WholeUnitsReach(p: Position, targetBps: int, priceBase: int, decimals: nat, costBps: int)
    requires priceBase > 0 && Pow10(decimals) % priceBase == 0
    requires Gain(p.ltBps, targetBps, costBps) > 0 && Shortfall(p, targetBps) > 0
    ensures var r := SizeRepay(p, targetBps, priceBase, decimals, costBps, 0);
            Reaches(p, targetBps, costBps, r.repayAmount * priceBase, Pow10(decimals))
            <==> BPS * Shortfall(p, targetBps) % Gain(p.ltBps, targetBps, costBps) == 0
  {
    SizedTokensReach(p, targetBps, priceBase, decimals, costBps);
    var s, need, gain := Pow10(decimals), BPS * Shortfall(p, targetBps), Gain(p.ltBps, targetBps, costBps);
    MultipleAddsNothing(need / gain, s, priceBase);
    var cut := need % gain;
    assert cut > 0 ==> cut * s > 0;
  }

  lemma MultipleAddsNothing(k: int, s: int, price: int)
    requires price > 0 && s % price == 0
    ensures -(k * s) % price == 0
  {
    var q := s / price;
    assert s == q * price;
    assert -(k * s) == (-(k * q)) * price;
    DivIs(-(k * s), price, -(k * q));
  }

  lemma CeilAdds(a: int, price: int)
    requires price > 0
    ensures CeilDiv(a, price) * price - a == -a % price
  {
    var q := (-a) / price;
    assert -a == q * price + (-a) % price;
  }

  lemma CutAgainstAdded(need: int, gain: int, s: int, n: int)
    requires gain > 0
    ensures n * gain >= need * s <==> (n - need / gain * s) * gain >= need % gain * s
  {
  }

  /** On an 18-decimal dollar token nothing is added back: this account is sized short of target. */
  lemma SizedTokensCanMiss()
    ensures var p := Position(600_000_000_000, 400_000_000_000, 8_000);
            var r := SizeRepay(p, 13_000, 100_000_000, 18, 100, 0);
            && Gain(p.ltBps, 13_000, 100) > 0 && Shortfall(p, 13_000) > 0
            && r.feasible && r.repayAmount * 100_000_000 < p.debt * Pow10(18)
            && !Reaches(p, 13_000, 100, r.repayAmount * 100_000_000, Pow10(18))
  {
    var p := Position(600_000_000_000, 400_000_000_000, 8_000);
    SizeRepayIs(p, 13_000, 100_000_000, 18, 100, 0);
    SizedTokensReach(p, 13_000, 100_000_000, 18, 100);
    assert Pow10(18) == 1_000_000_000_000_000_000 by {
      assert Pow10(6) == 1_000_000;
      assert Pow10(12) == 1_000_000_000_000;
    }
    assert Delta(p, 13_000, 100) == 81_300_813_008;
  }

  // ---- A sized repayment needs no second one -----------------------------------------------

  /** The position after repaying `delta`, with collateral scaled by 10^4 so that the cost `f`
      stays exact. The threshold is scaled down to match: `l*C` is unchanged. */
  function ScaledShortfallAfter(p: Position, targetBps: int, costBps: int, delta: int): int {
    targetBps * BPS * (p.debt - delta) - p.ltBps * (BPS * p.collateral - delta * (BPS + costBps))
  }

  /** Re-sizing the exact post-repayment position asks for zero, and one unit less would not have. */
  lemma ResizeIsZero(p: Position, targetBps: int, costBps: int)
    requires Gain(p.ltBps, targetBps, costBps) > 0
    ensures var gain := Gain(p.ltBps, targetBps, costBps);
            var delta := Delta(p, targetBps, costBps);
            && ScaledShortfallAfter(p, targetBps, costBps, delta) / gain == 0
            && ScaledShortfallAfter(p, targetBps, costBps, delta - 1) / gain == 1
  {
    var gain, delta := Gain(p.ltBps, targetBps, costBps), Delta(p, targetBps, costBps);
    AfterIsLinear(p, targetBps, costBps, delta);
    AfterIsLinear(p, targetBps, costBps, delta - 1);
    var need := BPS * Shortfall(p, targetBps);
    DivIs(need, gain, delta);
    assert (delta - 1) * gain == delta * gain - gain;
    DivIs(need - delta * gain, gain, 0);
    DivIs(need - (delta - 1) * gain, gain, 1);
  }

  lemma AfterIsLinear(p: Position, targetBps: int, costBps: int, delta: int)
    ensures ScaledShortfallAfter(p, targetBps, costBps, delta)
         == BPS * Shortfall(p, targetBps) - delta * Gain(p.ltBps, targetBps, costBps)
  {
  }

  // ---- When collateral covers the debt and its cost ----------------------------------------

  predicate Covered(p: Position, costBps: int) {
    BPS * p.collateral >= (BPS + costBps) * p.debt
  }

  /** A covered position never repays more than its debt nor spends more than its collateral. */
  lemma CoveredIsBounded(p: Position, targetBps: int, costBps: int)
    requires Plausible(p) && costBps >= 0 && Covered(p, costBps)
    requires Gain(p.ltBps, targetBps, costBps) > 0
    ensures Delta(p, targetBps, costBps) <= p.debt
    ensures Delta(p, targetBps, costBps) * (BPS + costBps) <= BPS * p.collateral
  {
  }

  /** Every account that is not yet liquidatable is covered, at any threshold `l` with
      `l*(1+f) <= 1`. */
  lemma HealthyIsCovered(p: Position, costBps: int)
    requires Plausible(p) && costBps >= 0
    requires p.ltBps * p.collateral >= BPS * p.debt
    requires p.ltBps * (BPS + costBps) <= BPS * BPS
    ensures Covered(p, costBps)
  {
  }

  // ---- Monotone in the target --------------------------------------------------------------

  /** Two sizings compare exactly as the collateral slack says. */
  lemma TargetsCompare(p: Position, low: int, high: int, costBps: int)
    ensures Shortfall(p, high) * Gain(p.ltBps, low, costBps) - Shortfall(p, low) * Gain(p.ltBps, high, costBps)
         == (high - low) * (p.ltBps * (BPS * p.collateral - (BPS + costBps) * p.debt))
  {
  }

  /** Before the floor, a higher target asks for at least as much exactly when the debt and its cost
      are covered (or the collateral counts for nothing): `need/gain` compared by cross-multiplication. */
  lemma HigherAsksMoreIffCovered(p: Position, low: int, high: int, costBps: int)
    requires p.ltBps >= 0 && low < high && Gain(p.ltBps, low, costBps) > 0
    ensures Gain(p.ltBps, high, costBps) > 0
    ensures Shortfall(p, low) * Gain(p.ltBps, high, costBps) <= Shortfall(p, high) * Gain(p.ltBps, low, costBps)
            <==> Covered(p, costBps) || p.ltBps == 0
  {
  }

  /** With the debt and its cost covered, a higher target never asks for less, in base or in tokens;
      unreachable targets, the zero-repayment region and unpriceable debt included. */
  lemma RepayMonotone(p: Position, low: int, high: int, priceBase: int, decimals: nat, costBps: int, overshootBps: int)
    requires Plausible(p) && costBps >= 0 && overshootBps >= 0 && Covered(p, costBps)
    requires low <= high
    ensures var a := SizeRepay(p, low, priceBase, decimals, costBps, overshootBps);
            var b := SizeRepay(p, high, priceBase, decimals, costBps, overshootBps);
            a.deltaBase <= b.deltaBase && a.repayAmount <= b.repayAmount
  {
    SizeRepayIs(p, low, priceBase, decimals, costBps, overshootBps);
    SizeRepayIs(p, high, priceBase, decimals, costBps, overshootBps);
    DeltaMonotone(p, low, high, costBps);
    TokensMonotone(Base(p, low, costBps), Base(p, high, costBps), priceBase, decimals, overshootBps);
  }

  lemma DeltaMonotone(p: Position, low: int, high: int, costBps: int)
    requires Plausible(p) && costBps >= 0 && Covered(p, costBps) && low <= high
    ensures Gain(p.ltBps, low, costBps) > 0 ==> Gain(p.ltBps, high, costBps) > 0
    ensures 0 <= Base(p, low, costBps) <= Base(p, high, costBps)
  {
    BaseIsNat(p, high, costBps);
    if Gain(p.ltBps, low, costBps) > 0 { FeasibleMonotone(p, low, high, costBps); }
  }

  lemma BaseIsNat(p: Position, targetBps: int, costBps: int)
    ensures Base(p, targetBps, costBps) >= 0
  {
    var gain := Gain(p.ltBps, targetBps, costBps);
    if gain > 0 { DivLeast(BPS * Shortfall(p, targetBps), gain, 0); }
  }

  lemma GainGrows(ltBps: int, low: int, high: int, costBps: int)
    requires low <= high
    ensures Gain(ltBps, low, costBps) <= Gain(ltBps, high, costBps)
  {
  }

  lemma ShortfallGrows(p: Position, low: int, high: int)
    requires p.debt >= 0 && low <= high
    ensures Shortfall(p, low) <= Shortfall(p, high)
  {
    MulMonotone(low, high, p.debt);
  }

  lemma CoveredOrder(p: Position, low: int, high: int, costBps: int)
    requires Plausible(p) && Covered(p, costBps) && low <= high
    ensures Shortfall(p, low) * Gain(p.ltBps, high, costBps) <= Shortfall(p, high) * Gain(p.ltBps, low, costBps)
  {
    TargetsCompare(p, low, high, costBps);
    var slack := BPS * p.collateral - (BPS + costBps) * p.debt;
    MulNonNegative(p.ltBps, slack);
    MulNonNegative(high - low, p.ltBps * slack);
  }

  lemma ScaledQuotients(a: int, b: int, a': int, b': int)
    requires b > 0 && b' > 0 && a * b' <= a' * b
    ensures BPS * a / b <= BPS * a' / b'
  {
    assert (BPS * a) * b' == BPS * (a * b');
    assert (BPS * a') * b == BPS * (a' * b);
    DivCrossMonotone(BPS * a, b, BPS * a', b');
  }

  lemma FeasibleMonotone(p: Position, low: int, high: int, costBps: int)
    requires Plausible(p) && costBps >= 0 && Covered(p, costBps)
    requires low <= high && Gain(p.ltBps, low, costBps) > 0
    ensures Gain(p.ltBps, high, costBps) > 0
    ensures 0 <= Base(p, low, costBps) <= Base(p, high, costBps)
  {
    GainGrows(p.ltBps, low, high, costBps);
    BaseIsNat(p, low, costBps);
    BaseIsNat(p, high, costBps);
    if Shortfall(p, low) > 0 {
      ShortfallGrows(p, low, high);
      CoveredOrder(p, low, high, costBps);
      ScaledQuotients(Shortfall(p, low), Gain(p.ltBps, low, costBps), Shortfall(p, high), Gain(p.ltBps, high, costBps));
    }
  }

  lemma TokensMonotone(a: int, b: int, priceBase: int, decimals: nat, overshootBps: int)
    requires a <= b && overshootBps >= 0
    ensures priceBase > 0 ==>
              Tokens(a, priceBase, decimals, overshootBps) <= Tokens(b, priceBase, decimals, overshootBps)
    ensures priceBase > 0 && a == 0 ==> Tokens(a, priceBase, decimals, overshootBps) == 0
  {
    if priceBase > 0 {
      var s, o := Pow10(decimals), BPS + overshootBps;
      assert a * s <= b * s;
      CeilMonotone(a * s, b * s, priceBase);
      var x, y := CeilDiv(a * s, priceBase), CeilDiv(b * s, priceBase);
      assert x * o <= y * o;
      DivMonotone(x * o, y * o, BPS);
    }
  }

  /** Short of cover the order turns round: a higher target asks for no more in base units... */
  lemma RepayAntitoneWhenShort(p: Position, low: int, high: int, costBps: int)
    requires Plausible(p) && !Covered(p, costBps)
    requires low <= high && Gain(p.ltBps, low, costBps) > 0
    ensures Gain(p.ltBps, high, costBps) > 0
    ensures Delta(p, high, costBps) <= Delta(p, low, costBps)
  {
    var needLow, needHigh := Shortfall(p, low), Shortfall(p, high);
    var gainLow, gainHigh := Gain(p.ltBps, low, costBps), Gain(p.ltBps, high, costBps);
    var slack := BPS * p.collateral - (BPS + costBps) * p.debt;
    TargetsCompare(p, low, high, costBps);
    assert p.ltBps * slack <= 0;
    assert (high - low) * (p.ltBps * slack) <= 0;
    assert BPS * needHigh * gainLow == BPS * (needHigh * gainLow);
    assert BPS * needLow * gainHigh == BPS * (needLow * gainHigh);
    DivCrossMonotone(BPS * needHigh, gainHigh, BPS * needLow, gainLow);
  }

  /** ...and strictly less on a real account, so cover cannot be dropped from `RepayMonotone`. */
  lemma ShortRepayStrictlyFalls()
    ensures var p := Position(100, 1_000, 8_000);
            && !Covered(p, 100)
            && SizeRepay(p, 20_000, 1, 0, 100, 0).repayAmount < SizeRepay(p, 12_500, 1, 0, 100, 0).repayAmount
  {
  }
}

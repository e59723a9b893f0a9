/** The economic gate (backend/app/core/viability.py). */
module Viability {
  import opened Arithmetic

  datatype ViabilityResult = ViabilityResult(
    valueProtectedBase: int, costBase: int, estCostBps: int, viable: bool, reason: Option<string>)

  function AssessViability(repayValueBase: int, liqBonusBps: int, swapCostBase: int, gasCostBase: int,
                           debtLiquidatableBase: Option<int>): ViabilityResult
  {
    var liquidatable := if debtLiquidatableBase.Some? then debtLiquidatableBase.value else repayValueBase;
    var protected := liquidatable * liqBonusBps / BPS;
    var premium := repayValueBase * FLASH_PREMIUM_BPS / BPS;
    var cost := premium + Max(swapCostBase, 0) + Max(gasCostBase, 0);
    var estCost := if repayValueBase > 0 then cost * BPS / repayValueBase else 0;
    var viable := protected > cost;
    ViabilityResult(protected, cost, estCost, viable, if viable then None else Some("cost >= value protected"))
  }

  /** The costs of a rescue: its flash premium, and what swap and gas cost where they cost anything. */
  function Costs(premium: int, swap: int, gas: int): int {
    premium + (if swap > 0 then swap else 0) + (if gas > 0 then gas else 0)
  }

  /** A rescue is viable exactly when the bonus on what is exposed covers premium, swap and gas with a unit
      to spare; the estimate is their sum as a share of the repayment, rounded down to a basis point. */
  lemma ViableWhen(repay: int, bonus: int, swap: int, gas: int, exposed: Option<int>, premium: int)
    requires BPS * premium <= 5 * repay < BPS * (premium + 1)
    ensures var v := AssessViability(repay, bonus, swap, gas, exposed);
            var cost := Costs(premium, swap, gas);
            && (v.viable <==> (if exposed.Some? then exposed.value else repay) * bonus >= BPS * (cost + 1))
            && (v.reason.None? <==> v.viable) && v.costBase == cost
            && BPS * v.valueProtectedBase <= (if exposed.Some? then exposed.value else repay) * bonus
                 < BPS * (v.valueProtectedBase + 1)
            && (repay <= 0 ==> v.estCostBps == 0)
            && (repay > 0 ==> v.estCostBps * repay <= cost * BPS < v.estCostBps * repay + repay)
  {
    var gain, cost := (if exposed.Some? then exposed.value else repay) * bonus, Costs(premium, swap, gas);
    DivIs(repay * FLASH_PREMIUM_BPS, BPS, premium);
    DivLeast(gain, BPS, cost + 1);
    DivIs(gain, BPS, gain / BPS);
    if repay > 0 { DivIs(cost * BPS, repay, cost * BPS / repay); }
  }

  /** A viable rescue costs a smaller share of what it repays than the bonus it avoids. */
  lemma ViableCostsLessThanBonus(repay: int, bonus: int, swap: int, gas: int)
    requires repay > 0 && AssessViability(repay, bonus, swap, gas, None).viable
    ensures 0 <= AssessViability(repay, bonus, swap, gas, None).estCostBps < bonus
  {
    var v := AssessViability(repay, bonus, swap, gas, None);
    DivLeast(repay * bonus, BPS, v.costBase + 1);
    DivLeast(repay * FLASH_PREMIUM_BPS, BPS, 0);
    DivLeast(v.costBase * BPS, repay, 0);
    DivLeast(v.costBase * BPS, repay, bonus);
    assert bonus * repay == repay * bonus;
  }

  lemma ShareMonotone(repay: int, low: int, high: int)
    requires repay >= 0 && low <= high
    ensures repay * low / BPS <= repay * high / BPS
  {
  }

  /** Dearer swaps, dearer gas or a smaller bonus never turn a decline into a go. */
  lemma ViabilityMonotone(repay: int, bonus: int, swap: int, gas: int, bonus': int, swap': int, gas': int)
    requires repay >= 0 && bonus' <= bonus && swap <= swap' && gas <= gas'
    requires AssessViability(repay, bonus', swap', gas', None).viable
    ensures AssessViability(repay, bonus, swap, gas, None).viable
  {
    var v, v' := AssessViability(repay, bonus, swap, gas, None), AssessViability(repay, bonus', swap', gas', None);
    assert v.costBase <= v'.costBase;
    ShareMonotone(repay, bonus', bonus);
    assert v'.valueProtectedBase <= v.valueProtectedBase;
  }
}

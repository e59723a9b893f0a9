/** The decision pipeline and the monitor's classifier (backend/app/core/pipeline.py,
    backend/app/core/monitor.py). Chain reads arrive as one record of facts. */
module Pipeline {
  import opened Arithmetic
  import opened Models
  import opened Sizing
  import opened Risk
  import opened Selector
  import opened Viability

  const WATCH_BAND_BPS := 500

  function HfBps(account: UserAccountData): int {
    account.healthFactor / BPS_TO_WAD
  }

  function ClassifyState(account: UserAccountData, triggerBps: int): Observation {
    if !account.HasDebt() then Healthy
    else if HfBps(account) <= triggerBps then Assessing
    else if HfBps(account) <= triggerBps + WATCH_BAND_BPS then Watch
    else Healthy
  }

  datatype Facts = Facts(account: UserAccountData, debt: Debt, chain: Address -> Candidate)

  function PositionOf(a: UserAccountData): Position {
    Position(a.totalCollateralBase, a.totalDebtBase, a.liquidationThresholdBps)
  }

  function TargetBps(params: RiskParams, sigma: real): int
    requires params.Valid()
  {
    HfTargetBps(sigma, params.hfTargetBaseBps, params.hfTargetMaxBps, params.volCoeffK).value
  }

  function Sized(params: RiskParams, facts: Facts, sigma: real): SizingResult
    requires params.Valid()
  {
    SizeRepay(PositionOf(facts.account), TargetBps(params, sigma), facts.debt.priceBase, facts.debt.decimals,
              DEFAULT_BUNDLED_COST_BPS, 0)
  }

  function Best(params: RiskParams, facts: Facts, repay: int): Option<CollateralChoice> {
    SelectBest(Choices(params.allowedCollaterals, facts.chain, facts.debt, WithFlashPremium(repay)))
  }

  function Economics(sizing: SizingResult, best: CollateralChoice, facts: Facts, gasCostBase: int): ViabilityResult {
    AssessViability(sizing.deltaBase, facts.chain(best.collateralAsset).bonusBps,
                    Max(best.amountInValueBase - best.outNeededValueBase, 0), gasCostBase, None)
  }

  function Evaluate(params: RiskParams, facts: Facts, sigma: real, gasCostBase: int)
    : (AssessmentResponse, Option<RescuePlan>)
    requires params.Valid()
  {
    var a := facts.account;
    var targetBps := TargetBps(params, sigma);
    var target := targetBps as real / BPS as real;
    if !a.HasDebt() then
      (AssessmentResponse(Infinite, target, 0, "", 0, false, Some("no debt: nothing to protect")), None)
    else
      var sizing := Sized(params, facts, sigma);
      if !sizing.feasible || sizing.repayAmount == 0 then
        var reason := if sizing.reason.Some? then sizing.reason.value else "no repayment required";
        (AssessmentResponse(a.Hf(), target, 0, "", 0, false, Some(reason)), None)
      else
        var best := Best(params, facts, sizing.repayAmount);
        if best.None? then
          (AssessmentResponse(a.Hf(), target, sizing.repayAmount, "", 0, false,
                              Some("no eligible collateral (missing aToken allowance or unquotable)")), None)
        else
          var v := Economics(sizing, best.value, facts, gasCostBase);
          (AssessmentResponse(a.Hf(), target, sizing.repayAmount, best.value.collateralAsset, v.estCostBps, v.viable, v.reason),
           if v.viable then
             Some(RescuePlan(params.borrower, facts.debt.asset, sizing.repayAmount, best.value.collateralAsset,
                             best.value.feeTier, best.value.amountIn, targetBps, params.maxSlippageBps))
           else None)
  }

  /** The selected choice is some allow-listed candidate's own, quoted within its allowance. */
  lemma BestIsEligible(params: RiskParams, facts: Facts, repay: int)
    requires Best(params, facts, repay).Some?
    ensures var best := Best(params, facts, repay).value;
            var c := facts.chain(best.collateralAsset);
            && best.collateralAsset in params.allowedCollaterals
            && best == ChoiceFor(best.collateralAsset, c, facts.debt, WithFlashPremium(repay))
            && c.quote == Some(best.amountIn) && 0 < best.amountIn <= c.allowance
  {
    BestIsFirstBest(Choices(params.allowedCollaterals, facts.chain, facts.debt, WithFlashPremium(repay)));
  }

  lemma SizedIsPositive(params: RiskParams, facts: Facts, sigma: real)
    requires params.Valid() && Sized(params, facts, sigma).repayAmount != 0
    ensures Sized(params, facts, sigma).repayAmount > 0 && Sized(params, facts, sigma).deltaBase > 0
  {
    var p, t := PositionOf(facts.account), TargetBps(params, sigma);
    var price, decimals := facts.debt.priceBase, facts.debt.decimals;
    SizeRepayIs(p, t, price, decimals, DEFAULT_BUNDLED_COST_BPS, 0);
    var base := Base(p, t, DEFAULT_BUNDLED_COST_BPS);
    if base != 0 {
      DivLeast(BPS * Shortfall(p, t), Gain(p.ltBps, t, DEFAULT_BUNDLED_COST_BPS), 0);
    }
    TokensMonotone(0, base, price, decimals, 0);
  }

  /** The sized tokens are worth at least the base repayment they were sized for. */
  lemma SizedValue(params: RiskParams, facts: Facts, sigma: real)
    requires params.Valid() && Sized(params, facts, sigma).repayAmount != 0
    ensures var r := Sized(params, facts, sigma);
            0 < r.deltaBase <= RepayValueBase(r.repayAmount, facts.debt.priceBase, facts.debt.decimals)
  {
    SizedIsPositive(params, facts, sigma);
    var p, t := PositionOf(facts.account), TargetBps(params, sigma);
    SizeRepayIs(p, t, facts.debt.priceBase, facts.debt.decimals, DEFAULT_BUNDLED_COST_BPS, 0);
    ValueRoundTrip(p, t, facts.debt.priceBase, facts.debt.decimals, DEFAULT_BUNDLED_COST_BPS);
  }

  /** A plan exists exactly when the response is viable, and then it is within the signed mandate:
      the target lies in the signed band, the collateral is allow-listed and quoted within its
      allowance, the repayment is positive and is the sized one, and the cost is below the bonus. */
  lemma PlanIsWithinMandate(params: RiskParams, facts: Facts, sigma: real, gasCostBase: int)
    requires params.Valid()
    ensures var (response, plan) := Evaluate(params, facts, sigma, gasCostBase);
            && (plan.Some? <==> response.viable)
            && (plan.Some? ==>
                  var p := plan.value;
                  var c := facts.chain(p.collateralAsset);
                  && facts.account.HasDebt() && response.hf == facts.account.Hf()
                  && params.hfTargetBaseBps <= p.hfTargetBps <= params.hfTargetMaxBps
                  && response.hfTarget == p.hfTargetBps as real / BPS as real
                  && p.collateralAsset in params.allowedCollaterals && p.collateralAsset == response.collateralAsset
                  && c.quote == Some(p.amountIn) && 0 < p.amountIn <= c.allowance
                  && p.borrower == params.borrower && p.debtAsset == facts.debt.asset
                  && p.feeTier == c.feeTier && p.maxSlippageBps == params.maxSlippageBps
                  && p.repayAmount == response.repayAmount == Sized(params, facts, sigma).repayAmount > 0
                  && 0 <= response.estCostBps < c.bonusBps)
  {
    TargetInBandAndMonotone(sigma, sigma, params.hfTargetBaseBps, params.hfTargetMaxBps, params.volCoeffK);
    var sizing := Sized(params, facts, sigma);
    var (response, plan) := Evaluate(params, facts, sigma, gasCostBase);
    if plan.Some? {
      SizedIsPositive(params, facts, sigma);
      BestIsEligible(params, facts, sizing.repayAmount);
      var best := Best(params, facts, sizing.repayAmount).value;
      ViableCostsLessThanBonus(sizing.deltaBase, facts.chain(best.collateralAsset).bonusBps,
                               Max(best.amountInValueBase - best.outNeededValueBase, 0), gasCostBase);
    }
  }

  /** What the economics compare, in the chosen candidate's own terms. */
  ghost predicate Pays(c: Candidate, debt: Debt, delta: int, repay: int, gasCostBase: int, premium: int) {
    var inValue := ToBaseValue(QuotedIn(c), c.decimals, c.priceBase);
    var outValue := ToBaseValue(WithFlashPremium(repay), debt.decimals, debt.priceBase);
    delta * c.bonusBps >= BPS * (Costs(premium, inValue - outValue, gasCostBase) + 1)
  }

  lemma EconomicsAre(sizing: SizingResult, asset: Address, facts: Facts, gasCostBase: int, premium: int)
    requires BPS * premium <= 5 * sizing.deltaBase < BPS * (premium + 1)
    ensures var best := ChoiceFor(asset, facts.chain(asset), facts.debt, WithFlashPremium(sizing.repayAmount));
            Economics(sizing, best, facts, gasCostBase).viable
            <==> Pays(facts.chain(asset), facts.debt, sizing.deltaBase, sizing.repayAmount, gasCostBase, premium)
  {
    var c := facts.chain(asset);
    var best := ChoiceFor(asset, c, facts.debt, WithFlashPremium(sizing.repayAmount));
    ViableWhen(sizing.deltaBase, c.bonusBps, Max(best.amountInValueBase - best.outNeededValueBase, 0), gasCostBase, None, premium);
  }

  /** The candidate at this position of the signed list is the cheapest eligible one. */
  ghost predicate Chosen(params: RiskParams, facts: Facts, repay: int, i: int) {
    CheapestFirst(Choices(params.allowedCollaterals, facts.chain, facts.debt, WithFlashPremium(repay)), i)
  }

  /** The verdict from the arguments: viable exactly when there is debt, a positive repayment is sized, and
      the cheapest eligible candidate's bonus on it covers premium, swap and gas with a unit to spare. */
  lemma {:induction false} ViableExactly(params: RiskParams, facts: Facts, sigma: real, gasCostBase: int, premium: int)
    requires params.Valid()
    requires var delta := Sized(params, facts, sigma).deltaBase; BPS * premium <= 5 * delta < BPS * (premium + 1)
    ensures var sizing := Sized(params, facts, sigma);
            Evaluate(params, facts, sigma, gasCostBase).0.viable <==>
              && facts.account.HasDebt() && sizing.feasible && sizing.repayAmount > 0
              && exists i :: Chosen(params, facts, sizing.repayAmount, i)
                             && Pays(facts.chain(params.allowedCollaterals[i]), facts.debt, sizing.deltaBase,
                                     sizing.repayAmount, gasCostBase, premium)
  {
    var sizing := Sized(params, facts, sigma);
    var assets := params.allowedCollaterals;
    var choices := Choices(assets, facts.chain, facts.debt, WithFlashPremium(sizing.repayAmount));
    ViableIs(params, facts, sigma, gasCostBase);
    SelectedIsCheapest(choices);
    if i :| Chosen(params, facts, sizing.repayAmount, i) {
      EconomicsAre(sizing, assets[i], facts, gasCostBase, premium);
      forall j | Chosen(params, facts, sizing.repayAmount, j)
        ensures j == i
      {
      }
    }
  }

  /** What a response says whatever the verdict: the target asked for; the health factor read; a repayment
      only if one was sized; a collateral and a cost only if one was selected. */
  lemma ResponseIs(params: RiskParams, facts: Facts, sigma: real, gasCostBase: int)
    requires params.Valid()
    ensures var r := Evaluate(params, facts, sigma, gasCostBase).0;
            var sizing := Sized(params, facts, sigma);
            var sized := facts.account.HasDebt() && sizing.feasible;
            && r.hfTarget * BPS as real == TargetBps(params, sigma) as real
            && (facts.account.HasDebt() ==> r.hf == Finite(facts.account.healthFactor as real / WAD as real))
            && r.repayAmount == (if sized then sizing.repayAmount else 0)
            && (r.estCostBps != 0 ==> sized && Best(params, facts, sizing.repayAmount).Some?)
            && (r.reason.None? <==> r.viable)
            && (r.collateralAsset != "" ==>
                  sized && Best(params, facts, sizing.repayAmount).Some?
                  && r.collateralAsset == Best(params, facts, sizing.repayAmount).value.collateralAsset)
  {
  }

  /** The monitor's classification in the account's own units: up to the last WAD of the trigger's basis
      point, then up to the last of the five hundred above it. */
  lemma ClassifyWhen(account: UserAccountData, triggerBps: int)
    ensures var st, h, unit := ClassifyState(account, triggerBps), account.healthFactor, BPS_TO_WAD;
            && (st == Assessing <==> account.totalDebtBase > 0 && h < (triggerBps + 1) * unit)
            && (st == Watch <==> account.totalDebtBase > 0 && (triggerBps + 1) * unit <= h < (triggerBps + 501) * unit)
            && (st == Healthy <==> account.totalDebtBase <= 0 || h >= (triggerBps + 501) * unit)
  {
    DivLeast(account.healthFactor, BPS_TO_WAD, triggerBps + 1);
    DivLeast(account.healthFactor, BPS_TO_WAD, triggerBps + 501);
  }

  lemma ViableRepayIsWorth(params: RiskParams, facts: Facts, sigma: real, gasCostBase: int)
    requires params.Valid() && Evaluate(params, facts, sigma, gasCostBase).0.viable
    ensures var a := Evaluate(params, facts, sigma, gasCostBase).0;
            0 < Sized(params, facts, sigma).deltaBase
              <= RepayValueBase(a.repayAmount, facts.debt.priceBase, facts.debt.decimals)
  {
    PlanIsWithinMandate(params, facts, sigma, gasCostBase);
    SizedValue(params, facts, sigma);
  }

  lemma ViableIs(params: RiskParams, facts: Facts, sigma: real, gasCostBase: int)
    requires params.Valid()
    ensures var sizing := Sized(params, facts, sigma);
            var best := Best(params, facts, sizing.repayAmount);
            Evaluate(params, facts, sigma, gasCostBase).0.viable <==>
              && facts.account.HasDebt() && sizing.feasible && sizing.repayAmount > 0
              && best.Some? && Economics(sizing, best.value, facts, gasCostBase).viable
  {
    if Sized(params, facts, sigma).repayAmount != 0 { SizedIsPositive(params, facts, sigma); }
  }

  /** The verdict is exact: viable if and only if there is debt, a feasible repayment is needed, some
      allow-listed collateral can be quoted within its allowance, and the first best of them pays. */
  lemma ViableExactlyWhen(params: RiskParams, facts: Facts, sigma: real, gasCostBase: int)
    requires params.Valid()
    ensures var sizing := Sized(params, facts, sigma);
            var choices := Choices(params.allowedCollaterals, facts.chain, facts.debt, WithFlashPremium(sizing.repayAmount));
            Evaluate(params, facts, sigma, gasCostBase).0.viable <==>
              && facts.account.HasDebt() && sizing.feasible && sizing.repayAmount > 0
              && exists i :: FirstBest(choices, i) && choices[i].eligible
                             && Economics(sizing, choices[i], facts, gasCostBase).viable
  {
    ViableIs(params, facts, sigma, gasCostBase);
    var repay := Sized(params, facts, sigma).repayAmount;
    FirstBestIsSelected(Choices(params.allowedCollaterals, facts.chain, facts.debt, WithFlashPremium(repay)));
  }

  /** The assessed health factor is infinite exactly without debt. */
  lemma InfiniteIffNoDebt(params: RiskParams, facts: Facts, sigma: real, gasCostBase: int)
    requires params.Valid()
    ensures Evaluate(params, facts, sigma, gasCostBase).0.hf.Infinite? <==> !facts.account.HasDebt()
  {
  }

  // ---- A rescue that pays ---------------------------------------------------------------------

  const EXAMPLE_MANDATE := RiskParams("b", 12_000, 13_000, 0, 14_000, 50, 100, ["weth"], 0, 0)

  /** Debt of 4000 dollars at a health factor of 1.2, and one collateral quoted at par. */
  const EXAMPLE_FACTS := Facts(
    UserAccountData(600_000_000_000, 400_000_000_000, 8_000, 1_200_000_000_000_000_000),
    Debt("usdc", 6, 100_000_000),
    (c: Address) => Candidate(8, 100_000_000, 8_000, 500, 3_000, Some(81_341_463_500), 81_341_463_500))

  lemma ExampleSizing()
    ensures var r := Sized(EXAMPLE_MANDATE, EXAMPLE_FACTS, 0.0);
            r.feasible && r.deltaBase == 81_300_813_008 && r.repayAmount == 813_008_131
  {
    var p := PositionOf(EXAMPLE_FACTS.account);
    assert TargetBps(EXAMPLE_MANDATE, 0.0) == 13_000;
    SizeRepayIs(p, 13_000, 100_000_000, 6, DEFAULT_BUNDLED_COST_BPS, 0);
    SizeRepayExact(p, 13_000, 100_000_000, 6, DEFAULT_BUNDLED_COST_BPS, 0);
    assert Pow10(6) == 1_000_000;
  }

  /** Gas alone can decline a rescue: the example at forty-one dollars of gas. */
  lemma GasAloneDeclines()
    ensures !Evaluate(EXAMPLE_MANDATE, EXAMPLE_FACTS, 0.0, 4_100_000_000).0.viable
  {
    ExampleIsViable();
    ExampleSizing();
    ViableIs(EXAMPLE_MANDATE, EXAMPLE_FACTS, 0.0, 0);
    ViableIs(EXAMPLE_MANDATE, EXAMPLE_FACTS, 0.0, 4_100_000_000);
    var best := Best(EXAMPLE_MANDATE, EXAMPLE_FACTS, 813_008_131).value;
    BestIsEligible(EXAMPLE_MANDATE, EXAMPLE_FACTS, 813_008_131);
    ViableWhen(81_300_813_008, 500, Max(best.amountInValueBase - best.outNeededValueBase, 0), 4_100_000_000, None, 40_650_406);
  }

  /** There are viable assessments: here of 813.008131 dollars, at 4 basis points. */
  lemma ExampleIsViable()
    ensures EXAMPLE_MANDATE.Valid()
    ensures Evaluate(EXAMPLE_MANDATE, EXAMPLE_FACTS, 0.0, 0).0
         == AssessmentResponse(Finite(1.2), 1.3, 813_008_131, "weth", 4, true, None)
  {
    ExampleSizing();
    var c, outNeeded := EXAMPLE_FACTS.chain("weth"), WithFlashPremium(813_008_131);
    assert outNeeded == 813_414_635;
    var choice := ChoiceFor("weth", c, EXAMPLE_FACTS.debt, outNeeded);
    assert Pow10(6) == 1_000_000;
    assert Pow10(8) == 100_000_000 by { assert Pow10(4) == 10_000; }
    assert choice.eligible && choice.amountInValueBase == choice.outNeededValueBase == 81_341_463_500;
    assert ["weth"][..0] == [];
    var choices := Choices(["weth"], EXAMPLE_FACTS.chain, EXAMPLE_FACTS.debt, outNeeded);
    assert choices == [choice];
    assert RankCollaterals(choices[1..]) == [];
    assert Best(EXAMPLE_MANDATE, EXAMPLE_FACTS, 813_008_131) == Some(choice);
    assert Economics(Sized(EXAMPLE_MANDATE, EXAMPLE_FACTS, 0.0), choice, EXAMPLE_FACTS, 0)
        == ViabilityResult(4_065_040_650, 40_650_406, 4, true, None);
  }
}

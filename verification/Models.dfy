/** The records the keeper passes around (backend/app/core/models.py, backend/app/core/state.py). */
module Models {
  import opened Arithmetic

  type Address = string

  datatype PositionState =
    Healthy | Watch | Assessing | Declined | Ready | Submitted | Restored | Reverted

  /** What the monitor can make of an account. */
  type Observation = s: PositionState | s == Healthy || s == Watch || s == Assessing witness Healthy

  /** The mandate a borrower signs. */
  datatype RiskParams = RiskParams(
    borrower: Address, hfTriggerBps: int, hfTargetBaseBps: int, volCoeffK: int, hfTargetMaxBps: int,
    maxSlippageBps: int, maxCostBps: int, allowedCollaterals: seq<Address>, nonce: int, deadline: int)
  {
    /** What the model's validators enforce on construction. */
    predicate Valid() {
      && hfTriggerBps >= 0 && volCoeffK >= 0 && nonce >= 0 && deadline >= 0
      && 0 <= hfTargetBaseBps <= hfTargetMaxBps
      && 0 <= maxSlippageBps <= BPS && 0 <= maxCostBps <= BPS
    }
  }

  /** A float that is finite, treated as an exact real, or `float("inf")`. */
  datatype Ratio = Infinite | Finite(value: real)

  datatype AssessmentResponse = AssessmentResponse(
    hf: Ratio, hfTarget: real, repayAmount: int, collateralAsset: Address, estCostBps: int,
    viable: bool, reason: Option<string>)

  datatype RescuePlan = RescuePlan(
    borrower: Address, debtAsset: Address, repayAmount: int, collateralAsset: Address, feeTier: int,
    amountIn: int, hfTargetBps: int, maxSlippageBps: int)

  datatype SimulationResult = SimulationResult(
    success: bool, repayAmount: int, amountInMaximum: int, bumps: int, revertReason: Option<string>)

  datatype SubmissionResult = SubmissionResult(txHash: string, status: int, viaFallback: bool)

  datatype UserAccountData = UserAccountData(
    totalCollateralBase: int, totalDebtBase: int, liquidationThresholdBps: int, healthFactor: int)
  {
    predicate HasDebt() { totalDebtBase > 0 }

    function Hf(): Ratio {
      if totalDebtBase == 0 then Infinite else Finite(healthFactor as real / WAD as real)
    }
  }
}

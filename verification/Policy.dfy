/** The deterministic policy gate (backend/app/agent/policy.py). The human-readable detail of each
    check is not modelled. */
module Policy {
  import opened Arithmetic
  import opened Models
  import opened Sizing
  import opened Pipeline

  datatype CheckName =
    | REGISTERED | MANDATE_NOT_EXPIRED | HF_BELOW_TRIGGER | COST_WITHIN_MANDATE | COLLATERAL_ALLOWLISTED
    | TARGET_IN_SIGNED_BAND | HAS_DEBT | STATE_ACTIONABLE | HF_GAP_MATERIAL | ASSESSMENT_VIABLE
    | REPAY_POSITIVE | REPAY_BOUNDED | BREAKER_OK | NOT_INFLIGHT | RATE_LIMIT_BORROWER | RATE_LIMIT_GLOBAL

  datatype GateCheck = GateCheck(name: CheckName, passed: bool)

  datatype Severity = Ok | SoftBlock | HardBlock

  datatype PolicyDecision = PolicyDecision(
    allowed: bool, checks: seq<GateCheck>, blocking: seq<CheckName>, severity: Severity)

  datatype PolicyLimits = PolicyLimits(
    maxRepayFraction: real, maxCostBps: int, minHfGapBps: int, maxPerBorrower: int, maxGlobal: int)

  datatype Snapshot = Snapshot(borrower: Address, account: UserAccountData, state: PositionState)

  datatype Input = Input(
    params: Option<RiskParams>, assessment: AssessmentResponse, snapshot: Snapshot,
    breakerPaused: bool, inFlight: seq<Address>, limits: PolicyLimits, now: real,
    debtPriceBase: int, debtDecimals: int, recentBorrower: int, recentGlobal: int)

  function MaxRepayBase(i: Input): int {
    Trunc(i.snapshot.account.totalDebtBase as real * i.limits.maxRepayFraction)
  }

  /** What each check asks. Without a mandate, whatever depends on one fails. */
  predicate Holds(name: CheckName, i: Input)
    requires i.assessment.hf.Finite?
  {
    var a, acct := i.assessment, i.snapshot.account;
    match name
    case REGISTERED => i.params.Some?
    case MANDATE_NOT_EXPIRED =>
      i.params.Some? && (i.params.value.deadline == 0 || i.params.value.deadline as real > i.now)
    case HF_BELOW_TRIGGER => i.params.Some? && HfBps(acct) <= i.params.value.hfTriggerBps
    case COST_WITHIN_MANDATE =>
      i.params.Some? && a.estCostBps <= i.params.value.maxCostBps && a.estCostBps <= i.limits.maxCostBps
    case COLLATERAL_ALLOWLISTED => i.params.Some? && a.collateralAsset in i.params.value.allowedCollaterals
    case TARGET_IN_SIGNED_BAND =>
      i.params.Some? &&
      i.params.value.hfTargetBaseBps <= Round(a.hfTarget * BPS as real) <= i.params.value.hfTargetMaxBps
    case HAS_DEBT => acct.HasDebt()
    case STATE_ACTIONABLE => i.snapshot.state == Watch || i.snapshot.state == Assessing
    case HF_GAP_MATERIAL => Round((a.hfTarget - a.hf.value) * BPS as real) >= i.limits.minHfGapBps
    case ASSESSMENT_VIABLE => a.viable
    case REPAY_POSITIVE => a.repayAmount > 0
    case REPAY_BOUNDED => 0 < RepayValueBase(a.repayAmount, i.debtPriceBase, i.debtDecimals) <= MaxRepayBase(i)
    case BREAKER_OK => !i.breakerPaused
    case NOT_INFLIGHT => i.snapshot.borrower !in i.inFlight
    case RATE_LIMIT_BORROWER => i.recentBorrower < i.limits.maxPerBorrower
    case RATE_LIMIT_GLOBAL => i.recentGlobal < i.limits.maxGlobal
  }

  const UNREGISTERED_MANDATE: seq<CheckName> := [
    REGISTERED, MANDATE_NOT_EXPIRED, COST_WITHIN_MANDATE, COLLATERAL_ALLOWLISTED, TARGET_IN_SIGNED_BAND,
    HF_BELOW_TRIGGER]

  const REGISTERED_MANDATE: seq<CheckName> := [
    REGISTERED, MANDATE_NOT_EXPIRED, HF_BELOW_TRIGGER, COST_WITHIN_MANDATE, COLLATERAL_ALLOWLISTED,
    TARGET_IN_SIGNED_BAND]

  const POSITION: seq<CheckName> := [
    HAS_DEBT, STATE_ACTIONABLE, HF_GAP_MATERIAL, ASSESSMENT_VIABLE, REPAY_POSITIVE, REPAY_BOUNDED]

  const KEEPER: seq<CheckName> := [BREAKER_OK, NOT_INFLIGHT, RATE_LIMIT_BORROWER, RATE_LIMIT_GLOBAL]

  function MandateOrder(i: Input): seq<CheckName> {
    if i.params.None? then UNREGISTERED_MANDATE else REGISTERED_MANDATE
  }

  function Order(i: Input): seq<CheckName> {
    MandateOrder(i) + POSITION + KEEPER
  }

  predicate Passes(i: Input) {
    i.assessment.hf.Finite? && forall k :: 0 <= k < 16 ==> Holds(Order(i)[k], i)
  }

  /** The checks reported are exactly these, in this order, each with its own verdict. */
  ghost predicate Reports(checks: seq<GateCheck>, names: seq<CheckName>, i: Input)
    requires i.assessment.hf.Finite?
  {
    && |checks| == |names|
    && forall k :: 0 <= k < |names| ==> checks[k] == GateCheck(names[k], Holds(names[k], i))
  }

  method MandateChecks(i: Input) returns (checks: seq<GateCheck>)
    ensures i.assessment.hf.Finite? ==> Reports(checks, MandateOrder(i), i)
  {
    var a := i.assessment;
    checks := [GateCheck(REGISTERED, i.params.Some?)];
    if i.params.None? {
      checks := checks + [GateCheck(MANDATE_NOT_EXPIRED, false), GateCheck(COST_WITHIN_MANDATE, false),
                          GateCheck(COLLATERAL_ALLOWLISTED, false), GateCheck(TARGET_IN_SIGNED_BAND, false),
                          GateCheck(HF_BELOW_TRIGGER, false)];
    } else {
      var p := i.params.value;
      var hfBps := i.snapshot.account.healthFactor / BPS_TO_WAD;
      checks := checks + [GateCheck(MANDATE_NOT_EXPIRED, p.deadline == 0 || p.deadline as real > i.now)];
      checks := checks + [GateCheck(HF_BELOW_TRIGGER, hfBps <= p.hfTriggerBps)];
      var costCap := Min(p.maxCostBps, i.limits.maxCostBps);
      checks := checks + [GateCheck(COST_WITHIN_MANDATE, a.estCostBps <= costCap)];
      checks := checks + [GateCheck(COLLATERAL_ALLOWLISTED, a.collateralAsset in p.allowedCollaterals)];
      var targetBps := Round(a.hfTarget * BPS as real);
      checks := checks + [GateCheck(TARGET_IN_SIGNED_BAND, p.hfTargetBaseBps <= targetBps <= p.hfTargetMaxBps)];
    }
  }

  /** None: rounding an infinite gap raised. */
  method PositionChecks(i: Input) returns (checks: Option<seq<GateCheck>>)
    ensures checks.None? <==> i.assessment.hf.Infinite?
    ensures checks.Some? ==> Reports(checks.value, POSITION, i)
  {
    var a, acct, l := i.assessment, i.snapshot.account, i.limits;
    var found := [GateCheck(HAS_DEBT, acct.totalDebtBase > 0)];
    found := found + [GateCheck(STATE_ACTIONABLE, i.snapshot.state in {Watch, Assessing})];
    if a.hf.Infinite? { return None; }
    var gapBps := Round((a.hfTarget - a.hf.value) * BPS as real);
    found := found + [GateCheck(HF_GAP_MATERIAL, gapBps >= l.minHfGapBps)];
    found := found + [GateCheck(ASSESSMENT_VIABLE, a.viable)];
    found := found + [GateCheck(REPAY_POSITIVE, a.repayAmount > 0)];
    var repayBase := RepayValueBase(a.repayAmount, i.debtPriceBase, i.debtDecimals);
    var maxBase := MaxRepayBase(i);
    found := found + [GateCheck(REPAY_BOUNDED, 0 < repayBase <= maxBase)];
    checks := Some(found);
  }

  method KeeperChecks(i: Input) returns (checks: seq<GateCheck>)
    ensures i.assessment.hf.Finite? ==> Reports(checks, KEEPER, i)
  {
    checks := [GateCheck(BREAKER_OK, !i.breakerPaused)];
    checks := checks + [GateCheck(NOT_INFLIGHT, i.snapshot.borrower !in i.inFlight)];
    checks := checks + [GateCheck(RATE_LIMIT_BORROWER, i.recentBorrower < i.limits.maxPerBorrower)];
    checks := checks + [GateCheck(RATE_LIMIT_GLOBAL, i.recentGlobal < i.limits.maxGlobal)];
  }

  /** Rounding an infinite gap raises, so a no-debt assessment gets no verdict at all. Otherwise every
      check is reported, none short-circuits, and the verdict is their conjunction. */
  method Evaluate(i: Input) returns (d: Option<PolicyDecision>)
    ensures d.None? <==> i.assessment.hf.Infinite?
    ensures d.Some? ==> |d.value.checks| == 16 && Reports(d.value.checks, Order(i), i)
    ensures d.Some? ==> (d.value.allowed <==> Passes(i))
    ensures d.Some? ==> (forall n :: n in d.value.blocking <==> !Holds(n, i))
    ensures d.Some? ==>
              d.value.severity == if d.value.allowed then Ok
                                  else if i.breakerPaused || i.snapshot.borrower in i.inFlight then HardBlock
                                  else SoftBlock
  {
    var mandate := MandateChecks(i);
    var position := PositionChecks(i);
    if position.None? { return None; }
    var keeper := KeeperChecks(i);
    var checks := mandate + position.value + keeper;
    d := Some(Decide(checks));
    DecisionIs(i, checks);
  }

  lemma BlockingIs(i: Input, checks: seq<GateCheck>, n: CheckName)
    requires i.assessment.hf.Finite? && Reports(checks, Order(i), i)
    ensures n in Blocking(checks) <==> !Holds(n, i)
  {
    OrderIsComplete(i);
    DecideIs(checks);
    assert n in Order(i);
    var k :| 0 <= k < |Order(i)| && Order(i)[k] == n;
    assert checks[k] == GateCheck(n, Holds(n, i));
  }

  lemma DecisionIs(i: Input, checks: seq<GateCheck>)
    requires i.assessment.hf.Finite? && Reports(checks, Order(i), i)
    ensures var d := Decide(checks);
            && (d.allowed <==> Passes(i))
            && (forall n :: n in d.blocking <==> !Holds(n, i))
            && d.severity == if d.allowed then Ok
                             else if i.breakerPaused || i.snapshot.borrower in i.inFlight then HardBlock
                             else SoftBlock
  {
    var blocking := Blocking(checks);
    forall n: CheckName
      ensures n in blocking <==> !Holds(n, i)
    {
      BlockingIs(i, checks, n);
    }
    PassesMeansAll(i);
    assert BREAKER_OK in blocking <==> i.breakerPaused;
    assert NOT_INFLIGHT in blocking <==> i.snapshot.borrower in i.inFlight;
    if blocking != [] {
      assert blocking[0] in blocking;
      assert !Holds(blocking[0], i);
    }
  }

  function Blocking(checks: seq<GateCheck>): seq<CheckName> {
    if checks == [] then []
    else Blocking(checks[..|checks| - 1]) + (if checks[|checks| - 1].passed then [] else [checks[|checks| - 1].name])
  }

  function Decide(checks: seq<GateCheck>): PolicyDecision {
    var blocking := Blocking(checks);
    PolicyDecision(blocking == [], checks, blocking,
                   if blocking == [] then Ok
                   else if BREAKER_OK in blocking || NOT_INFLIGHT in blocking then HardBlock else SoftBlock)
  }

  lemma {:induction false} DecideIs(checks: seq<GateCheck>)
    ensures forall n :: n in Blocking(checks) <==> GateCheck(n, false) in checks
  {
    if checks != [] {
      DecideIs(checks[..|checks| - 1]);
      assert checks == checks[..|checks| - 1] + [checks[|checks| - 1]];
    }
  }

  function Rank(n: CheckName): nat {
    match n
    case REGISTERED => 0 case MANDATE_NOT_EXPIRED => 1 case HF_BELOW_TRIGGER => 2 case COST_WITHIN_MANDATE => 3
    case COLLATERAL_ALLOWLISTED => 4 case TARGET_IN_SIGNED_BAND => 5 case HAS_DEBT => 6
    case STATE_ACTIONABLE => 7 case HF_GAP_MATERIAL => 8 case ASSESSMENT_VIABLE => 9 case REPAY_POSITIVE => 10
    case REPAY_BOUNDED => 11 case BREAKER_OK => 12 case NOT_INFLIGHT => 13 case RATE_LIMIT_BORROWER => 14
    case RATE_LIMIT_GLOBAL => 15
  }

  /** Both shapes of the checklist list every check exactly once. */
  lemma OrderIsComplete(i: Input)
    ensures |Order(i)| == 16
    ensures forall n: CheckName :: n in Order(i)
    ensures forall j, k :: 0 <= j < k < 16 ==> Order(i)[j] != Order(i)[k]
  {
    forall n: CheckName
      ensures n in Order(i)
    {
      var o := Order(i);
      if i.params.Some? {
        assert o[Rank(n)] == n;
      } else {
        assert o[if 3 <= Rank(n) <= 5 then Rank(n) - 1 else if Rank(n) == 2 then 5 else Rank(n)] == n;
      }
    }
  }

  lemma PassesMeansAll(i: Input)
    requires i.assessment.hf.Finite?
    ensures Passes(i) <==> forall n :: Holds(n, i)
  {
    OrderIsComplete(i);
    if Passes(i) {
      forall n: CheckName
        ensures Holds(n, i)
      {
        assert n in Order(i);
        var k :| 0 <= k < |Order(i)| && Order(i)[k] == n;
      }
    }
  }

  // ---- What passing means, in the mandate's and the operator's own terms ---------------------------

  /** At least `n` basis points, half a point and ties rounded to even. */
  predicate AtLeastBps(x: real, n: int) {
    x * 10000.0 > n as real - 0.5 || (x * 10000.0 == n as real - 0.5 && n % 2 == 0)
  }

  /** The borrower's mandate is there, in force, and lets this rescue be. */
  predicate Mandated(p: RiskParams, a: AssessmentResponse, account: UserAccountData, now: real) {
    && (p.deadline != 0 ==> now < p.deadline as real)
    && account.healthFactor < (p.hfTriggerBps + 1) * BPS_TO_WAD
    && a.estCostBps <= p.maxCostBps
    && a.collateralAsset in p.allowedCollaterals
    && AtLeastBps(a.hfTarget, p.hfTargetBaseBps) && !AtLeastBps(a.hfTarget, p.hfTargetMaxBps + 1)
  }

  /** The operator's limits let it be too. */
  predicate Limited(i: Input)
    requires i.assessment.hf.Finite?
  {
    var a, l := i.assessment, i.limits;
    && a.estCostBps <= l.maxCostBps
    && AtLeastBps(a.hfTarget - a.hf.value, l.minHfGapBps)
    && i.recentBorrower < l.maxPerBorrower && i.recentGlobal < l.maxGlobal
  }

  /** The repayment has a price and a value, within the operator's share of the debt. */
  predicate Affordable(i: Input) {
    && i.debtDecimals >= 0 && i.debtPriceBase > 0 && i.assessment.repayAmount > 0
    && i.assessment.repayAmount * i.debtPriceBase >= Pow10(i.debtDecimals)
    && i.assessment.repayAmount * i.debtPriceBase < (MaxRepayBase(i) + 1) * Pow10(i.debtDecimals)
  }

  lemma TargetInBand(a: AssessmentResponse, p: RiskParams)
    ensures p.hfTargetBaseBps <= Round(a.hfTarget * BPS as real) <= p.hfTargetMaxBps
            <==> AtLeastBps(a.hfTarget, p.hfTargetBaseBps) && !AtLeastBps(a.hfTarget, p.hfTargetMaxBps + 1)
  {
    RoundAtLeast(a.hfTarget * 10000.0, p.hfTargetBaseBps);
    RoundAtLeast(a.hfTarget * 10000.0, p.hfTargetMaxBps + 1);
  }

  lemma MandateMeans(i: Input)
    requires i.assessment.hf.Finite?
    ensures && Holds(REGISTERED, i) && Holds(MANDATE_NOT_EXPIRED, i) && Holds(HF_BELOW_TRIGGER, i)
            && Holds(COST_WITHIN_MANDATE, i) && Holds(COLLATERAL_ALLOWLISTED, i) && Holds(TARGET_IN_SIGNED_BAND, i)
            <==> && i.params.Some? && Mandated(i.params.value, i.assessment, i.snapshot.account, i.now)
                 && i.assessment.estCostBps <= i.limits.maxCostBps
  {
    if i.params.Some? {
      DivLeast(i.snapshot.account.healthFactor, BPS_TO_WAD, i.params.value.hfTriggerBps + 1);
      TargetInBand(i.assessment, i.params.value);
    }
  }

  lemma RepayMeans(i: Input)
    requires i.assessment.hf.Finite?
    ensures Holds(REPAY_POSITIVE, i) && Holds(REPAY_BOUNDED, i) <==> Affordable(i)
  {
    var x, s := i.assessment.repayAmount * i.debtPriceBase, Pow10(if i.debtDecimals >= 0 then i.debtDecimals else 0);
    DivLeast(x, s, 1);
    DivLeast(x, s, MaxRepayBase(i) + 1);
  }

  /** The ceiling on a repayment is the whole base units in the operator's share of the debt. */
  lemma MaxRepayIs(i: Input, most: int)
    requires i.snapshot.account.totalDebtBase >= 0 && i.limits.maxRepayFraction >= 0.0
    ensures var share := i.snapshot.account.totalDebtBase as real * i.limits.maxRepayFraction;
            MaxRepayBase(i) == most <==> most as real <= share < most as real + 1.0
  {
    TimesGrows(i.snapshot.account.totalDebtBase as real, 0.0, i.limits.maxRepayFraction);
  }

  lemma RestMeans(i: Input)
    requires i.assessment.hf.Finite?
    ensures && Holds(HAS_DEBT, i) && Holds(STATE_ACTIONABLE, i) && Holds(HF_GAP_MATERIAL, i)
            && Holds(ASSESSMENT_VIABLE, i) && Holds(BREAKER_OK, i) && Holds(NOT_INFLIGHT, i)
            && Holds(RATE_LIMIT_BORROWER, i) && Holds(RATE_LIMIT_GLOBAL, i)
            <==> && i.snapshot.account.totalDebtBase > 0 && i.snapshot.state in {Watch, Assessing}
                 && AtLeastBps(i.assessment.hfTarget - i.assessment.hf.value, i.limits.minHfGapBps)
                 && i.assessment.viable && !i.breakerPaused && i.snapshot.borrower !in i.inFlight
                 && i.recentBorrower < i.limits.maxPerBorrower && i.recentGlobal < i.limits.maxGlobal
  {
    RoundAtLeast((i.assessment.hfTarget - i.assessment.hf.value) * 10000.0, i.limits.minHfGapBps);
  }

  /** The gate passes exactly when the mandate and the operator's limits both let the rescue be, the
      repayment is affordable, the assessment viable, the position actionable and indebted, the breaker
      closed and no rescue in flight. */
  lemma PassesWhen(i: Input)
    ensures Passes(i) <==>
              && i.assessment.hf.Finite? && i.params.Some?
              && Mandated(i.params.value, i.assessment, i.snapshot.account, i.now) && Limited(i) && Affordable(i)
              && i.assessment.viable && i.snapshot.account.totalDebtBase > 0 && i.snapshot.state in {Watch, Assessing}
              && !i.breakerPaused && i.snapshot.borrower !in i.inFlight
  {
    if i.assessment.hf.Finite? {
      MandateMeans(i);
      RepayMeans(i);
      RestMeans(i);
      AllSixteen(i);
    }
  }

  lemma AllSixteen(i: Input)
    requires i.assessment.hf.Finite?
    ensures Passes(i) <==>
              && Holds(REGISTERED, i) && Holds(MANDATE_NOT_EXPIRED, i) && Holds(HF_BELOW_TRIGGER, i)
              && Holds(COST_WITHIN_MANDATE, i) && Holds(COLLATERAL_ALLOWLISTED, i) && Holds(TARGET_IN_SIGNED_BAND, i)
              && Holds(HAS_DEBT, i) && Holds(STATE_ACTIONABLE, i) && Holds(HF_GAP_MATERIAL, i)
              && Holds(ASSESSMENT_VIABLE, i) && Holds(REPAY_POSITIVE, i) && Holds(REPAY_BOUNDED, i)
              && Holds(BREAKER_OK, i) && Holds(NOT_INFLIGHT, i)
              && Holds(RATE_LIMIT_BORROWER, i) && Holds(RATE_LIMIT_GLOBAL, i)
  {
    PassesMeansAll(i);
    if && Holds(REGISTERED, i) && Holds(MANDATE_NOT_EXPIRED, i) && Holds(HF_BELOW_TRIGGER, i)
       && Holds(COST_WITHIN_MANDATE, i) && Holds(COLLATERAL_ALLOWLISTED, i) && Holds(TARGET_IN_SIGNED_BAND, i)
       && Holds(HAS_DEBT, i) && Holds(STATE_ACTIONABLE, i) && Holds(HF_GAP_MATERIAL, i)
       && Holds(ASSESSMENT_VIABLE, i) && Holds(REPAY_POSITIVE, i) && Holds(REPAY_BOUNDED, i)
       && Holds(BREAKER_OK, i) && Holds(NOT_INFLIGHT, i)
       && Holds(RATE_LIMIT_BORROWER, i) && Holds(RATE_LIMIT_GLOBAL, i)
    {
      forall n: CheckName
        ensures Holds(n, i)
      {
      }
    }
  }

  // ---- The stricter of mandate and operator governs ------------------------------------------------

  /** Whatever limits `l` let through, limits `m` let through. */
  predicate LimitsWithin(l: PolicyLimits, m: PolicyLimits) {
    && l.maxRepayFraction <= m.maxRepayFraction && l.maxCostBps <= m.maxCostBps && l.minHfGapBps >= m.minHfGapBps
    && l.maxPerBorrower <= m.maxPerBorrower && l.maxGlobal <= m.maxGlobal
  }

  /** Mandate `p` signs away no more than mandate `q`. */
  predicate MandateWithin(p: RiskParams, q: RiskParams) {
    && p.hfTriggerBps <= q.hfTriggerBps && p.maxCostBps <= q.maxCostBps
    && q.hfTargetBaseBps <= p.hfTargetBaseBps && p.hfTargetMaxBps <= q.hfTargetMaxBps
    && (forall c :: c in p.allowedCollaterals ==> c in q.allowedCollaterals)
    && (q.deadline == 0 || 0 < p.deadline <= q.deadline)
  }

  lemma TimesGrows(d: real, low: real, high: real)
    requires d >= 0.0 && low <= high
    ensures d * low <= d * high
  {
    assert d * (high - low) >= 0.0;
  }

  lemma MaxRepayGrows(i: Input, j: Input)
    requires i.snapshot == j.snapshot && i.snapshot.account.totalDebtBase >= 0
    requires i.limits.maxRepayFraction <= j.limits.maxRepayFraction
    ensures MaxRepayBase(i) <= MaxRepayBase(j)
  {
    var d := i.snapshot.account.totalDebtBase as real;
    TimesGrows(d, i.limits.maxRepayFraction, j.limits.maxRepayFraction);
    TruncMonotone(d * i.limits.maxRepayFraction, d * j.limits.maxRepayFraction);
  }

  /** Tightening the operator's limits, the mandate or both never turns a refusal into an approval,
      and neither does a paused breaker, another rescue in flight or a larger count of proposals. */
  lemma TighterNeverApproves(i: Input, j: Input)
    requires i.params.Some? ==> j.params.Some? && MandateWithin(i.params.value, j.params.value)
    requires LimitsWithin(i.limits, j.limits)
    requires (j.breakerPaused ==> i.breakerPaused) && forall b :: b in j.inFlight ==> b in i.inFlight
    requires j.recentBorrower <= i.recentBorrower && j.recentGlobal <= i.recentGlobal && j.now <= i.now
    requires i.assessment == j.assessment && i.snapshot == j.snapshot
    requires i.debtPriceBase == j.debtPriceBase && i.debtDecimals == j.debtDecimals
    requires Passes(i)
    ensures Passes(j)
  {
    PassesMeansAll(i);
    PassesMeansAll(j);
    assert Holds(REGISTERED, i) && Holds(HAS_DEBT, i);
    MaxRepayGrows(i, j);
    forall n: CheckName
      ensures Holds(n, j)
    {
      assert Holds(n, i);
    }
  }

  // ---- The gate behind the pipeline --------------------------------------------------------------

  /** The gate sees what the pipeline and the monitor made of one account under one mandate. */
  predicate Assessed(i: Input, params: RiskParams, facts: Facts, sigma: real, gasCostBase: int)
    requires params.Valid()
  {
    && i.params == Some(params) && i.snapshot.account == facts.account
    && i.snapshot.state == ClassifyState(facts.account, params.hfTriggerBps)
    && i.assessment == Pipeline.Evaluate(params, facts, sigma, gasCostBase).0
  }

  lemma RoundIsExact(n: int)
    ensures Round(n as real / BPS as real * BPS as real) == n
  {
  }

  /** Six checks follow from viability. */
  lemma ViableGuarantees(i: Input, params: RiskParams, facts: Facts, sigma: real, gasCostBase: int)
    requires params.Valid() && Assessed(i, params, facts, sigma, gasCostBase) && i.assessment.viable
    ensures i.assessment.hf.Finite? && i.snapshot.account.HasDebt()
    ensures Holds(REGISTERED, i) && Holds(COLLATERAL_ALLOWLISTED, i) && Holds(TARGET_IN_SIGNED_BAND, i)
    ensures Holds(HAS_DEBT, i) && Holds(ASSESSMENT_VIABLE, i) && Holds(REPAY_POSITIVE, i)
  {
    PlanIsWithinMandate(params, facts, sigma, gasCostBase);
    RoundIsExact(Pipeline.Evaluate(params, facts, sigma, gasCostBase).1.value.hfTargetBps);
  }

  /** The trigger check is the monitor's ASSESSING, and makes the state actionable. */
  lemma TriggerIsState(i: Input, params: RiskParams, facts: Facts)
    requires i.assessment.hf.Finite? && i.params == Some(params) && i.snapshot.account == facts.account
    requires facts.account.HasDebt() && i.snapshot.state == ClassifyState(facts.account, params.hfTriggerBps)
    ensures Holds(HF_BELOW_TRIGGER, i) <==> i.snapshot.state == Assessing
    ensures Holds(HF_BELOW_TRIGGER, i) ==> Holds(STATE_ACTIONABLE, i)
  {
  }

  lemma NineDecide(i: Input)
    requires i.assessment.hf.Finite? && (Holds(HF_BELOW_TRIGGER, i) ==> Holds(STATE_ACTIONABLE, i))
    requires Holds(REGISTERED, i) && Holds(COLLATERAL_ALLOWLISTED, i) && Holds(TARGET_IN_SIGNED_BAND, i)
    requires Holds(HAS_DEBT, i) && Holds(ASSESSMENT_VIABLE, i) && Holds(REPAY_POSITIVE, i)
    ensures Passes(i) <==>
              && Holds(MANDATE_NOT_EXPIRED, i) && Holds(HF_BELOW_TRIGGER, i) && Holds(COST_WITHIN_MANDATE, i)
              && Holds(HF_GAP_MATERIAL, i) && Holds(REPAY_BOUNDED, i) && Holds(BREAKER_OK, i)
              && Holds(NOT_INFLIGHT, i) && Holds(RATE_LIMIT_BORROWER, i) && Holds(RATE_LIMIT_GLOBAL, i)
  {
    PassesMeansAll(i);
  }

  /** For a viable assessment the pipeline already guarantees six of the sixteen checks, and the
      monitor's state is implied by the trigger, so exactly the remaining nine decide. In particular a
      gate that passes has seen an `Assessing` position, never a `Watch` one. */
  lemma GateBehindPipeline(i: Input, params: RiskParams, facts: Facts, sigma: real, gasCostBase: int)
    requires params.Valid() && Assessed(i, params, facts, sigma, gasCostBase) && i.assessment.viable
    ensures i.assessment.hf.Finite?
    ensures Holds(HF_BELOW_TRIGGER, i) <==> i.snapshot.state == Assessing
    ensures Passes(i) <==>
              && Holds(MANDATE_NOT_EXPIRED, i) && Holds(HF_BELOW_TRIGGER, i) && Holds(COST_WITHIN_MANDATE, i)
              && Holds(HF_GAP_MATERIAL, i) && Holds(REPAY_BOUNDED, i) && Holds(BREAKER_OK, i)
              && Holds(NOT_INFLIGHT, i) && Holds(RATE_LIMIT_BORROWER, i) && Holds(RATE_LIMIT_GLOBAL, i)
    ensures Passes(i) ==> i.snapshot.state == Assessing
  {
    ViableGuarantees(i, params, facts, sigma, gasCostBase);
    TriggerIsState(i, params, facts);
    NineDecide(i);
  }

  lemma BoundedRepay(i: Input, delta: int)
    requires i.assessment.hf.Finite? && Holds(REPAY_BOUNDED, i) && i.snapshot.account.totalDebtBase > 0
    requires delta <= RepayValueBase(i.assessment.repayAmount, i.debtPriceBase, i.debtDecimals)
    requires 0.0 < i.limits.maxRepayFraction <= 1.0
    ensures delta <= MaxRepayBase(i) <= i.snapshot.account.totalDebtBase
  {
    FractionOf(i.snapshot.account.totalDebtBase, i.limits.maxRepayFraction);
  }

  lemma FractionOf(debt: int, fraction: real)
    requires debt > 0 && 0.0 < fraction <= 1.0
    ensures Trunc(debt as real * fraction) <= debt
  {
  }

  /** What the gate lets through repays, in base value and before rounding up to a token, no more than
      the operator's fraction of the debt. */
  lemma ApprovedRepayIsBounded(i: Input, params: RiskParams, facts: Facts, sigma: real, gasCostBase: int)
    requires params.Valid() && Assessed(i, params, facts, sigma, gasCostBase) && i.assessment.viable
    requires i.debtPriceBase == facts.debt.priceBase && i.debtDecimals == facts.debt.decimals
    requires 0.0 < i.limits.maxRepayFraction <= 1.0
    requires i.assessment.hf.Finite? && Holds(REPAY_BOUNDED, i)
    ensures 0 < Sized(params, facts, sigma).deltaBase <= MaxRepayBase(i) <= facts.account.totalDebtBase
  {
    ViableRepayIsWorth(params, facts, sigma, gasCostBase);
    ViableIs(params, facts, sigma, gasCostBase);
    BoundedRepay(i, Sized(params, facts, sigma).deltaBase);
  }

  /** The gate can pass: the example rescue, registered, under the default limits. */
  lemma ExamplePasses()
    ensures var i := Input(
              Some(EXAMPLE_MANDATE), Pipeline.Evaluate(EXAMPLE_MANDATE, EXAMPLE_FACTS, 0.0, 0).0,
              Snapshot("b", EXAMPLE_FACTS.account, Assessing), false, [],
              PolicyLimits(0.5, 200, 25, 3, 12), 0.0, 100_000_000, 6, 0, 0);
            Assessed(i, EXAMPLE_MANDATE, EXAMPLE_FACTS, 0.0, 0) && i.assessment.viable && Passes(i)
  {
    ExampleIsViable();
    var i := Input(
      Some(EXAMPLE_MANDATE), Pipeline.Evaluate(EXAMPLE_MANDATE, EXAMPLE_FACTS, 0.0, 0).0,
      Snapshot("b", EXAMPLE_FACTS.account, Assessing), false, [],
      PolicyLimits(0.5, 200, 25, 3, 12), 0.0, 100_000_000, 6, 0, 0);
    GateBehindPipeline(i, EXAMPLE_MANDATE, EXAMPLE_FACTS, 0.0, 0);
    assert Pow10(6) == 1_000_000;
    assert Holds(REPAY_BOUNDED, i);
    assert Holds(HF_GAP_MATERIAL, i);
  }
}

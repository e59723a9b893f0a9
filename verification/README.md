# Keeper verification

A Dafny model of a keeper that protects Aave borrowers from liquidation, with proofs about it. The
keeper watches positions, sizes a flash-loan repayment that lifts a falling health factor back to a
target, dry-runs it, and submits it; an agent may also propose rescues, which a deterministic gate
judges and a human approves.

The model follows the program's structure, one module a component.

- **The rescue protocol.** `Service` cuts `protect`, `snapshot` and `tick` at their awaits. Scheduling
  is cooperative, so the code between two awaits is one atomic segment: a function of the shared state,
  and a method of `ProtectionService` proved to compute it, over the `CircuitBreaker`,
  `InFlightRegistry` and `Counters` objects. `KeeperSystem` runs any number of such calls in any order.
  An await may yield any value, an exception or cancellation; operators may reset or trip the breaker,
  change the threshold and the cooldown, register and unregister; time only moves forward.
  `Admission` says who is let in, `BreakerHistory` when the breaker is paused, and `Lifecycle` sets the
  recorded states against the lock and the transition table.
- **The decision arithmetic.** `Sizing`, `Risk`, `Selector`, `Viability` and `Pipeline` keep the code's
  nested integer divisions, and say what they amount to.
- **Proposals.** `Store` is the table, `Approval` any number of approvers, rejecters, insertions and
  expiry passes suspended at each store or service call, `RateLimit` any number of crew runs between
  counting and inserting, and `Policy` the sixteen-check gate, which `Crew` ties to those counts. `Execution` runs approvers and the keeper
  together: an approver awaits a `protect` call like any other.
- **Loops.** `Simulator` (bump, re-quote, retry), `Failover` (RPC endpoints), `Guard` (a worklist over
  nested payloads, with the fact sheet of `Facts`), `Risk.RollingVolatility`.

`Tightness` shows that the bounds on the failure streak and on proposals an hour are reached.

## Where the code and its documentation differ

The model follows the code.

- The breaker is asked only when a call enters (`backend/app/core/protection_service.py:107`), so a call
  admitted earlier may submit while the breaker is paused. `KeeperSystem.PausedStillSubmits` is such a
  run, `SubmissionStartsWhen` says exactly which step starts a submission, and `PausedDrains` bounds how
  many can follow a pause.
- `backend/app/core/state.py:3-6` says a borrower in SUBMITTED holds the lock. A cancelled submission
  releases the lock in `finally` and writes no state, so its borrower stays SUBMITTED and unlocked
  (`Lifecycle.CancelledIsStranded`); `StrandedWhen` and `SubmittedIsLocked` say that nothing else does
  this. Conversely a locked borrower leaves SUBMITTED exactly when it is unregistered or a racing call
  for it declines (`OutOfStepWhen`, with `LockedIsDeclined` and `LockedIsHealthy` as the two cases;
  registering again by itself changes no state). `SubmittedIffLocked` is the condition for whole runs.
- The same lines say illegal state jumps are rejected. The service never consults the transition table:
  `Lifecycle.JumpsWhen` names, branch by branch, the recorded states from which a step jumps. Entering
  `protect` from HEALTHY is a jump (`EnteringJumps`), and since SUBMITTED may only follow READY, which a
  keeper that can submit never records, so is every submission (`EverySubmissionJumps`).
- "Minimum repayment": the base amount is floored, so it can miss the target by less than one base unit.
  `Sizing.DeltaIsTight`, `SizedTokensReach` and `WholeUnitsReach` say exactly when the target is met, and
  `SizedTokensCanMiss` is an account that is sized short.
- A higher target asks for more only when collateral covers the debt and its cost;
  `Sizing.HigherAsksMoreIffCovered` is the exact condition, `ShortRepayStrictlyFalls` a case where the
  order is reversed.
- The limit on bumps is read anew before and after each attempt, and a configuration update may lower it
  meanwhile (`backend/app/deps.py:107`). The call then reports a pair it never tried
  (`Simulator.LimitCanCutOff`); under a fixed limit it never does (`FixedIsNotCutOff`).
- `backend/app/core/simulator.py:89` means a dry-run never to raise, but a quoter that raises does so
  inside an exception handler, which the sibling handler does not cover. `Simulator.Simulate` says the
  error escapes exactly when some attempt wants a larger size that cannot be quoted, and
  `QuoteCanEscape` is such a call. A success that comes from an empty revert (line 69) leaves the plan
  as it was: the pair reported and the plan disagree exactly when an attempt bumped to other amounts ends so
  (`PlanCanStayBehind`).
- `backend/app/agent/policy.py:13` says no check short-circuits. `round` of an infinite gap raises, so an
  assessment without debt gets no verdict at all. `Policy.Evaluate` says this is the only
  such case, and `Pipeline.InfiniteIffNoDebt` that it is the case without debt.
- `backend/app/agent/guard.py:8-13` means every text to be passed or flagged. Taking the integer part of an
  infinite value raises (line 73), so once one was observed there is no verdict, whatever the text says:
  `Guard.Check` says exactly then. The health factor of a borrower without debt is such a value, so a crew
  run over that borrower's fact sheet ends in an error (`Facts.NoVerdictIffNoDebt`).
- `backend/app/chain/client.py:74` promises failover over the endpoints. The preference is shared and read
  anew at each offset, so a call may go round without ever trying some endpoint (`EndpointCanBeMissed`);
  `Failover.VisitsAllIffDistinct` is the exact condition on the preferences it reads.
- `finish_proposal` has no status guard, so EXECUTED and the like are not final by themselves: an
  approver that read the proposal while pending can later mark it STALE (`Approval.ExecutedIsNotFinal`).
  `Approval.FinalIffSettled` is the exact condition.

## Model

| member | source | states |
|---|---|---|
| `KeeperSystem.NoDoubleSubmission` | backend/app/core/protection_service.py:169-209 | In every run, over any interleaving, the locked borrowers are exactly those with a submission outstanding, no borrower ever has two, and a locked borrower's state is SUBMITTED, DECLINED or HEALTHY |
| `KeeperSystem.FlowConservation` | backend/app/core/protection_service.py:107-209 | In every run each counter equals the calls that ended or wait in the matching places: submitted = restored + reverted + locked + cancelled, and likewise for dry-runs, assessments and admissions; trips never exceed reverts |
| `KeeperSystem.CooldownSpacing` | backend/app/core/inflight.py:34-52 | In every run, a borrower's submissions, the outstanding one included, are separated by the cooldown in force at each release, so k of them span at least k - 1 cooldowns whatever other borrowers and calls do |
| `KeeperSystem.StreakBound` | backend/app/core/breaker.py:57-85 | With thresholds up to m and at most n overlapping calls: unpaused means a streak under m, paused means streak plus running calls at most m - 1 + n, and at most m for a lone caller |
| `Tightness.StreakIsReached` | backend/app/core/breaker.py:65-78 | At every threshold m and overlap n some run within them drives the streak to m - 1 + n |
| `KeeperSystem.StreakIsExact` | backend/app/core/protection_service.py:178-202 | In every run the breaker's streak is exactly the failures since the last success or reset as the chain answered them; the restored, reverted and tripped counters are its successes, its failures and the failures that left the breaker paused |
| `KeeperSystem.PausedExactlyWhen` | backend/app/core/breaker.py:57-85 | In every run the breaker is paused exactly when, since the last reset, a hard signal came in or some failure found the streak at the threshold then live; the reason shown is the last hard signal's, or the streak's without one |
| `Admission.AdmittedWhen` | backend/app/core/protection_service.py:102-122 | In every run a call is admitted exactly when the breaker is closed, no submission for its borrower is outstanding, and the cooldown in force at the end of the last one, if any, is over |
| `Admission.SubmitsWhen` | backend/app/core/inflight.py:34-52 | In every run a call back from a successful dry-run submits exactly when the keeper can submit, no submission for its borrower is outstanding, and the last cooldown, if any, is over |
| `Admission.WorkerActsWhen` | backend/app/core/protection_service.py:233-240 | In every run the worker calls `protect` exactly when the poll says ASSESSING, the breaker is closed and the borrower is idle and rested |
| `Admission.ResetAdmits` | backend/app/core/breaker.py:80-85 | Right after a reset, in every run, a call is admitted exactly when its borrower is idle and rested |
| `Admission.HardSignalRefuses` | backend/app/core/breaker.py:71-78 | Right after a hard signal, in every run, every call is refused with that signal as the reason |
| `Admission.RefusalsAreTrue` | backend/app/core/protection_service.py:105-118 | A refused call is told its borrower, the state recorded before and after, and why |
| `Admission.ConfigInForce` | backend/app/core/inflight.py:27-29 | In every run the threshold, the cooldown and the autonomy switch in force are those last set, a negative cooldown counting as zero |
| `Admission.OffMeansOff` | backend/app/core/protection_service.py:226-227 | Switched off, in every run, the worker starts no pass |
| `Admission.ErrorsAreCounted` | backend/app/core/protection_service.py:192-243 | In every run the error counter is the exceptions of submitters and of worker iterations, one each |
| `Admission.StepRegisters` | backend/app/core/protection_service.py:70-77 | Every step registers exactly the entries it is called with, the newest replacing the borrower's last, and removes only an unregistered borrower |
| `Admission.CarriesMandate` | backend/app/core/protection_service.py:102-181 | In every run, every call in progress, down to its submission, carries the mandate and signature its caller or its pass gave |
| `Admission.ResumeCarries` | backend/app/core/protection_service.py:122-181 | A call keeps mandate and signature from await to await, dry-runs the plan assessed and submits what the dry-run accepted |
| `Admission.PassVisitsAll` | backend/app/core/protection_service.py:224-243 | An uncancelled pass polls the entries of its registry copy in order, each once, whatever raises on the way, and when over has polled them all |
| `BreakerHistory.TallyAdds` | backend/app/core/breaker.py:61-85 | Each answer, hard signal or reset moves the breaker as its history says |
| `KeeperSystem.EveryReceiptIsReported` | backend/app/core/protection_service.py:178-220 | In every run, the transactions that calls answer with are exactly the receipts that arrived, in order, each for its borrower and told as a rescue exactly when it succeeded |
| `KeeperSystem.SubmissionStartsWhen` | backend/app/core/protection_service.py:151-181 | The only step that starts a submission is a call resuming from a successful dry-run with a submitter, for a borrower neither in flight nor cooling down; the breaker plays no part |
| `KeeperSystem.PausedDrains` | backend/app/core/protection_service.py:107-112 | While the breaker stays paused every call that comes in is turned away, and no more submissions start than there were admitted calls that had not submitted |
| `KeeperSystem.PausedStillSubmits` | backend/app/core/protection_service.py:107-181 | A run in which a submission starts while the breaker is paused and the streak passes the threshold, reaching the bound of StreakBound |
| `Lifecycle.SubmittedIsLocked` | backend/app/core/protection_service.py:169-209 | Throughout a run SUBMITTED implies the lock is held exactly when no step cancels the submission of a borrower recorded as SUBMITTED; in particular in every run without cancellation |
| `Lifecycle.StrandedWhen` | backend/app/core/protection_service.py:175-209 | One step leaves a borrower SUBMITTED without the lock exactly when it cancels the submission of a borrower recorded as SUBMITTED |
| `Lifecycle.OutOfStepWhen` | backend/app/core/protection_service.py:75-158 | One step leaves a locked borrower in another state exactly when it unregisters the borrower or a racing call for it declines |
| `Lifecycle.SubmittedIffLocked` | backend/app/core/protection_service.py:75-209 | All along a run SUBMITTED and the lock coincide exactly when none of those three things happens to the borrower |
| `Lifecycle.CancelledIsStranded` | backend/app/core/protection_service.py:175-209 | A cancelled submission leaves its borrower SUBMITTED and unlocked |
| `Lifecycle.LockedIsDeclined` | backend/app/core/protection_service.py:122-131 | A second call for the same borrower declines while the first one's submission is outstanding |
| `Lifecycle.LockedIsHealthy` | backend/app/core/protection_service.py:70-77 | Unregistering and registering again leaves the borrower locked and HEALTHY; registering alone changes no state |
| `Lifecycle.StepRecords` | backend/app/core/protection_service.py:93-243 | Every step of every call records exactly the states its branch writes, for every borrower |
| `Lifecycle.JumpsWhen` | backend/app/core/state.py:28-51 | A step makes a move the transition table forbids exactly when the branch it takes is entered from a recorded state other than those named for it, branch by branch |
| `Lifecycle.EnteringJumps` | backend/app/core/protection_service.py:102-120 | Entering `protect` is a legal move exactly from WATCH or ASSESSING |
| `Lifecycle.EverySubmissionJumps` | backend/app/core/protection_service.py:161-177 | In every run of a keeper that can submit, every submission is a forbidden move unless the borrower was recorded as SUBMITTED already |
| `KeeperSystem.StepExclusive` | backend/app/core/protection_service.py:168-209 | One step of any call, tick, poll or operator action keeps the lock equal to the outstanding submissions, one each |
| `KeeperSystem.StepBalanced` | backend/app/core/protection_service.py:107-209 | One step keeps the whole ledger of counters, endings and suspended calls in balance |
| `KeeperSystem.StepLimited` | backend/app/core/breaker.py:61-85 | One step keeps streak and running calls within the overlap bound |
| `KeeperSystem.StepCoolsDown` | backend/app/core/inflight.py:42-52 | One step keeps the record of completed rescues in agreement with the lock and the cooldown table |
| `Service.ProtectionService.Protect` | backend/app/core/protection_service.py:102-122 | `protect` up to the pipeline await turns the shared state into exactly what `Begin` says, and answers as it says |
| `Service.ProtectionService.ProtectEvaluated` | backend/app/core/protection_service.py:122-151 | From the pipeline's answer to the dry-run await: state, counters and answer on each branch, and nothing else changed |
| `Service.ProtectionService.ProtectSimulated` | backend/app/core/protection_service.py:151-181 | From the dry-run's answer to the submission await, taking the lock last |
| `Service.ProtectionService.ProtectSubmitted` | backend/app/core/protection_service.py:178-220 | From the receipt, an exception or cancellation to the end; the lock is released and cooldown begins on every path |
| `Service.ProtectionService.RecordFailed` | backend/app/core/protection_service.py:187-191 | A failed rescue counts, extends the streak, marks the borrower, and counts a trip if the breaker is then paused |
| `Service.ProtectionService.Refresh` | backend/app/core/protection_service.py:93-98 | A poll replaces the borrower's state unless a rescue is in flight |
| `Service.ProtectionService.TickAct` | backend/app/core/protection_service.py:233-240 | A worker iteration refreshes the state and enters `protect` exactly when the poll says ASSESSING, the breaker is closed and the borrower is startable |
| `Service.ProtectionService.RegisterParams` | backend/app/core/protection_service.py:70-73 | Registration replaces the mandate and sets HEALTHY only for a borrower without a state |
| `Service.ProtectionService.Forget` | backend/app/core/protection_service.py:75-77 | Unregistering removes mandate and state, and neither lock nor cooldown |
| `Breaker.CircuitBreaker.RecordFailure` | backend/app/core/breaker.py:65-78 | A failure extends the streak and pauses, with its reason, when the streak reaches the live threshold and nothing paused it before |
| `Breaker.CircuitBreaker.RecordSuccess` | backend/app/core/breaker.py:61-63 | A success clears the streak and keeps the pause |
| `Breaker.CircuitBreaker.SetMax` | backend/app/core/breaker.py:39-43 | A threshold below one is refused and leaves everything as it was |
| `Breaker.CircuitBreaker.Create` | backend/app/core/breaker.py:27-33 | A threshold below one yields no breaker |
| `Breaker.CircuitBreaker.TripNow` | backend/app/core/breaker.py:71-78 | A hard signal pauses at once and keeps the streak |
| `Breaker.CircuitBreaker.ResetNow` | backend/app/core/breaker.py:80-85 | A reset clears pause, reason and streak, and keeps the threshold |
| `InFlight.InFlightRegistry.Acquire` | backend/app/core/inflight.py:42-47 | Taking the lock succeeds exactly when the borrower is startable, and a refusal changes nothing; `Admission.SubmitsWhen` says when that is |
| `InFlight.InFlightRegistry.ReleaseNow` | backend/app/core/inflight.py:49-52 | Releasing frees the borrower and starts the cooldown now in force |
| `InFlight.InFlightRegistry.Startable` | backend/app/core/inflight.py:31-40 | The combined lock and cooldown test |
| `InFlight.InFlightRegistry.Configure` | backend/app/core/inflight.py:27-29 | A negative cooldown becomes zero |
| `Observability.Counters.Add` | backend/app/observability.py:35-37 | The named counter is one more and every other one is unchanged |
| `Sizing.SizeRepayExact` | backend/app/core/sizing.py:44-63 | The WAD computation is one exact floor of need over gain with no inner rounding loss, and sizing is feasible exactly when each unit repaid helps and a needed repayment can be priced |
| `Sizing.WadIsExact` | backend/app/core/sizing.py:44-49 | Numerator and denominator are exact multiples of the unscaled shortfall and gain |
| `Sizing.SizeRepayIs` | backend/app/core/sizing.py:56-80 | Base and token amounts over all inputs, zero and unpriceable cases included |
| `Arithmetic.FlashPremiumIs` | backend/app/core/pipeline.py:109 | The flash premium is the whole number of units in five basis points of the repayment |
| `Sizing.ReachesIsHealth` | backend/app/core/sizing.py:32-49 | The integer inequality used below is the statement that the health factor of the position left behind is at least the target |
| `Sizing.DeltaIsTight` | backend/app/core/sizing.py:48-63 | Any smaller integer misses the target, any larger one reaches it, and the sized one reaches it exactly when the division has no remainder |
| `Sizing.TokensAreLeast` | backend/app/core/sizing.py:70-74 | The token amount is the least one worth at least the base amount |
| `Sizing.OvershootIs` | backend/app/core/sizing.py:72-74 | An overshoot adds its share of the sized tokens, rounded down |
| `Sizing.SizedTokensReach` | backend/app/core/sizing.py:63-74 | The tokens reach the target exactly when what rounding up adds back, read off account, target and price, makes good what the floor cut off |
| `Sizing.WholeUnitsReach` | backend/app/core/sizing.py:63-74 | Where one base unit buys a whole number of token units, the tokens reach the target exactly when the base division leaves no remainder |
| `Sizing.SizedTokensCanMiss` | backend/app/core/sizing.py:63-74 | An account on an 18-decimal dollar token that is sized short of its target |
| `Sizing.ValueRoundTrip` | backend/app/agent/policy.py:44-54 | Up into tokens and down into base returns no less, at most the value of one token unit more, and exactly the same when a token unit is worth at most one base unit |
| `Sizing.ValueOf` | backend/app/agent/policy.py:52-54 | What cannot be priced is worth nothing; otherwise the value is the whole base units in it |
| `Sizing.ResizeIsZero` | backend/app/core/sizing.py:48-63 | Sizing the exact position left behind asks for nothing more, and one unit less would have asked for one |
| `Sizing.CoveredIsBounded` | backend/app/core/sizing.py:44-63 | When collateral covers debt and cost, the repayment never exceeds the debt nor spends more than the collateral |
| `Sizing.HealthyIsCovered` | backend/app/core/sizing.py:44-49 | Every account with a health factor of at least one is covered, at any threshold with l(1+f) at most one |
| `Sizing.RepayMonotone` | backend/app/core/sizing.py:44-80 | For a covered position a higher target never asks for less, in base or tokens; unreachable targets, the zero region and unpriceable debt included |
| `Sizing.HigherAsksMoreIffCovered` | backend/app/core/sizing.py:44-63 | Before the floor, a higher target asks for at least as much exactly when debt and cost are covered |
| `Sizing.RepayAntitoneWhenShort` | backend/app/core/sizing.py:44-63 | Short of cover the order is reversed |
| `Sizing.ShortRepayStrictlyFalls` | backend/app/core/sizing.py:44-74 | An account where a higher target asks for strictly fewer tokens |
| `Risk.RepayMonotoneInVolatility` | backend/app/core/risk.py:71-81 | Through the clamp and the sizing, more volatility never means a smaller repayment for a covered position, unreachable targets included |
| `Risk.TargetInBandAndMonotone` | backend/app/core/risk.py:71-81 | The target stays in the signed band and never falls as volatility rises |
| `Risk.TargetIs` | backend/app/core/risk.py:78-81 | The target is the base and the whole basis points in k times sigma, up to the ceiling |
| `Risk.TargetEdges` | backend/app/core/risk.py:78-81 | An inverted band has no target, and a product that is not positive adds nothing |
| `Risk.RollingVolatility.Extend` | backend/app/core/risk.py:29-37 | After any stream the buffer is the last window + 1 positive prices |
| `Risk.RollingVolatility.Update` | backend/app/core/risk.py:31-33 | A non-positive price is dropped, a positive one pushes out the oldest |
| `Risk.VarianceVanishes` | backend/app/core/risk.py:43-49 | Sample variance is never negative, and zero exactly when there are fewer than two returns or all are equal |
| `Risk.VarianceIsPairwise` | backend/app/core/risk.py:43-49 | n times n - 1 of the sample variance are the squared differences over all pairs of returns |
| `Risk.ReturnsAre` | backend/app/core/risk.py:39-41 | Over positive prices the returns are each price over the one before, less one |
| `Risk.PositiveKeeps` | backend/app/core/risk.py:31-37 | What is kept of a stream is its positive prices, every one of them |
| `Risk.UnitsDoNotMatter` | backend/app/core/risk.py:39-41 | Scaling every price by a positive constant changes no return |
| `Selector.RankIsStableSort` | backend/app/core/selector.py:62-67 | The ranking is a sorted rearrangement of the choices in which ties keep their order |
| `Selector.FirstBestIsSelected` | backend/app/core/selector.py:129-147 | What is selected is the first choice no other beats, if it is eligible |
| `Selector.BestIsFirstBest` | backend/app/core/selector.py:129-147 | Something is selected exactly when something is eligible, and then the earliest best of it |
| `Selector.SelectedIsCheapest` | backend/app/core/selector.py:62-67 | In the choices' own fields: the selected one is eligible, of the least slippage, then of the highest threshold, then the earliest; there is one exactly when something is eligible |
| `Selector.RankIsBySlippage` | backend/app/core/selector.py:62-67 | The whole ranking in the same fields: eligible before not, then rising slippage, then falling threshold |
| `Selector.ChoiceIs` | backend/app/core/selector.py:39-59 | A choice carries its candidate's terms, the input valued at the collateral's price and decimals, what is needed at the debt's |
| `Selector.CandidateEligible` | backend/app/core/selector.py:103-126 | A candidate is eligible exactly when quoted for an input within the allowance and what is needed has value |
| `Selector.Evaluate` | backend/app/core/selector.py:85-127 | The gathering loop scores every candidate, in order, then ranks; an unquotable pair is scored with no input |
| `Selector.SlippageIs` | backend/app/core/selector.py:40-44 | Slippage is the premium over the value needed, rounded down to a basis point and never negative; eligibility needs allowance, an input and a valued output |
| `Viability.ViableCostsLessThanBonus` | backend/app/core/viability.py:36-43 | A viable rescue's estimated cost is below the liquidation bonus it avoids |
| `Viability.ViableWhen` | backend/app/core/viability.py:36-54 | Viable exactly when the bonus on what is exposed covers premium, swap and gas with a unit to spare; the estimate is their sum as a share of the repayment, rounded down |
| `Viability.ViabilityMonotone` | backend/app/core/viability.py:36-43 | Dearer swaps, dearer gas or a smaller bonus never turn a decline into a go |
| `Pipeline.PlanIsWithinMandate` | backend/app/core/pipeline.py:64-163 | A plan exists exactly when the response is viable; its target is in the signed band, its collateral allow-listed and quoted within the allowance, its repayment positive and the sized one, its cost below the bonus, its fee tier, debt asset and slippage bound the chosen ones |
| `Pipeline.ViableExactlyWhen` | backend/app/core/pipeline.py:81-163 | The verdict is viable exactly when there is debt, a feasible positive repayment, and an eligible first-best collateral whose economics clear |
| `Pipeline.ViableExactly` | backend/app/core/pipeline.py:81-163 | The verdict from the arguments: debt, a positive sized repayment, and a cheapest eligible candidate whose bonus on it covers premium, quoted swap and gas with a unit to spare |
| `Pipeline.GasAloneDeclines` | backend/app/core/pipeline.py:126-153 | Gas alone turns the example into a decline |
| `Pipeline.ResponseIs` | backend/app/core/pipeline.py:81-149 | Target, health factor, repayment, collateral and cost of every response, declined ones included |
| `Pipeline.ClassifyWhen` | backend/app/core/monitor.py:31-38 | ASSESSING, WATCH and HEALTHY in the account's own units |
| `Pipeline.SizedValue` | backend/app/core/pipeline.py:94-109 | The tokens of a non-zero sizing are worth at least its positive base amount |
| `Pipeline.InfiniteIffNoDebt` | backend/app/core/pipeline.py:81-86 | The assessed health factor is infinite exactly without debt |
| `Pipeline.ExampleIsViable` | backend/app/core/pipeline.py:64-163 | A viable assessment, with every figure of it |
| `Policy.Evaluate` | backend/app/agent/policy.py:57-187 | No verdict exactly when the assessed health factor is infinite; otherwise all sixteen checks are reported in order, allowed exactly when all pass, blocking lists exactly the failures, severity as the breaker and lock say |
| `Policy.PassesWhen` | backend/app/agent/policy.py:86-174 | The gate passes exactly when, in their own terms, the mandate is in force and lets the rescue be, the operator's limits do too, the repayment is affordable, the assessment viable, the position indebted and actionable, and the keeper free |
| `Policy.MaxRepayIs` | backend/app/agent/policy.py:150-153 | The ceiling is the whole base units in the operator's share of the debt |
| `Policy.GateBehindPipeline` | backend/app/agent/policy.py:83-187 | After a viable assessment and snapshot of the same account, exactly nine of the checks decide, the trigger check is the ASSESSING state, and a passing gate never saw WATCH |
| `Policy.ExamplePasses` | backend/app/agent/policy.py:57-187 | That assessment passes the gate under the default limits |
| `Policy.TighterNeverApproves` | backend/app/agent/policy.py:16-18 | Tightening operator limits or the mandate, pausing, more rescues in flight or more proposals never turn a refusal into an approval |
| `Policy.ApprovedRepayIsBounded` | backend/app/agent/policy.py:145-156 | What the size check lets through repays a positive base amount within the operator's fraction of the debt, and within the debt |
| `Policy.OrderIsComplete` | backend/app/agent/policy.py:86-174 | With or without a mandate, each of the sixteen checks is listed exactly once |
| `Approval.OneExecution` | backend/app/api/routes_agent.py:156-255 | In every run a proposal is claimed at most once across approvers and rejecters and executed at most once, by the approver that won the claim after its own gate allowed it and its age passed or was acknowledged |
| `Approval.ClaimsWhen` | backend/app/api/routes_agent.py:213-239 | In every run, after its gate's answer an approver goes on to claim exactly when it was allowed and is in time or acknowledged, to EXPIRED exactly when allowed but late, to STALE exactly when refused |
| `Approval.ReadsWhen` | backend/app/api/routes_agent.py:200-213 | An approver goes to its gate exactly for a pending proposal under a registered mandate, to STALE exactly for one under none, and is turned away otherwise |
| `Approval.StatusIsWarranted` | backend/app/api/routes_agent.py:156-260 | In every run each status given has its warrant: EXPIRED the row's own expiry past, STALE a refusal or a missing mandate, EXECUTED and FAILED a `protect` that did or did not submit, APPROVED and REJECTED a claim |
| `Approval.ApprovalGoesThrough` | backend/app/api/routes_agent.py:199-260 | From any pending proposal in time, or knowingly overridden, an undisturbed approver claims, executes once and records EXECUTED with its transaction if submitted, else FAILED, in its name |
| `Approval.ApprovalCanFail` | backend/app/api/routes_agent.py:246-255 | The same when `protect` raises: FAILED with the error noted |
| `Approval.LateGoesExpired` | backend/app/api/routes_agent.py:228-236 | An allowed, late, unacknowledged approval makes the proposal EXPIRED |
| `Approval.RefusedGoesStale` | backend/app/api/routes_agent.py:213-226 | A refusal makes it STALE, with the note |
| `Approval.UnregisteredGoesStale` | backend/app/api/routes_agent.py:206-210 | A missing mandate makes it STALE |
| `Approval.RejectionGoesThrough` | backend/app/api/routes_agent.py:156-168 | An undisturbed rejecter makes it REJECTED, in its name and with its note |
| `Approval.DecidedTurnsAway` | backend/app/api/routes_agent.py:203-240 | Whoever comes to a decided proposal changes nothing |
| `Approval.ExecutedWasEntitled` | backend/app/api/routes_agent.py:228-260 | In every run, a proposal that became EXECUTED was started by a handler entitled as above, and the age that was checked is the proposal's own |
| `Execution.ExecutedHasReceipt` | backend/app/api/routes_agent.py:246-260 | In every joint run of approvers and keeper, a proposal that became EXECUTED stems from a successful receipt for its own borrower with the transaction recorded, and no proposal has two receipts |
| `Execution.StepInv` | backend/app/api/routes_agent.py:238-260 | One joint step keeps every approver tied to the call it awaits and every EXECUTED row to its receipt |
| `Approval.NeverPendingAgain` | backend/app/agent/store.py:254-308 | No run returns a proposal to PENDING, removes one, or alters its creation data |
| `Approval.SettledIsFinal` | backend/app/agent/store.py:268-285 | A decided proposal with no live handler that read it as pending never changes again |
| `Approval.FinalIffSettled` | backend/app/agent/store.py:268-285 | Some run changes a proposal's row exactly when it is pending or such a handler is alive |
| `Approval.ExecutedIsNotFinal` | backend/app/api/routes_agent.py:203-241 | From any pending proposal, lapsed or not, there is a run that executes it and then marks it STALE |
| `Store.AgentStore.InsertProposal` | backend/app/agent/store.py:208-229 | A new pending row with its expiry, under an id not used before |
| `Store.AgentStore.GetProposal` | backend/app/agent/store.py:231-233 | The row, or nothing for an unknown id |
| `Store.AgentStore.ClaimProposal` | backend/app/agent/store.py:254-266 | Compare-and-set: succeeds exactly on a pending row, and a loser changes nothing |
| `Store.AgentStore.FinishProposal` | backend/app/agent/store.py:268-285 | An unconditional write; values not given keep what the row had |
| `Store.AgentStore.ExpireStaleProposals` | backend/app/agent/store.py:302-308 | Exactly the pending rows past their expiry become EXPIRED, and their number is returned |
| `Store.AgentStore.CountRecentProposals` | backend/app/agent/store.py:287-300 | The statement, counting row by row, yields the number of rows of the borrower, or of all, created at or after the instant |
| `Store.InsertedExpires` | backend/app/agent/store.py:221-229 | A proposal lives for its time to live: an expiry pass moves it exactly when later than creation plus that |
| `Store.ExpiryIs` | backend/app/agent/store.py:302-308 | An expiry pass touches nothing but the status of pending rows past their expiry |
| `Store.FinishIs` | backend/app/agent/store.py:279-285 | A final write field by field, and no other row |
| `RateLimit.WindowBound` | backend/app/agent/graph.py:239-292 | Starting from any table, in every run with at most n crew runs between count and insert, an hour, ends included, that did not hold more than limit - 1 + n proposals per borrower or globally never comes to: the limit itself for serial runs, none for a limit of zero |
| `RateLimit.FreshWindowBound` | backend/app/agent/graph.py:239-292 | From an empty table the bound holds of every hour |
| `Tightness.HourIsReached` | backend/app/agent/graph.py:239-292 | At every limit and overlap n some run within them puts limit - 1 + n proposals into one hour, for one borrower or overall |
| `RateLimit.StepInv` | backend/app/agent/policy.py:166-174 | One step keeps what every allowed run saw, what was pending when it counted, and the order of the counts |
| `Crew.ProposesWhenPassed` | backend/app/agent/graph.py:252-268 | A crew run goes on to propose exactly when the gate passes on the two counts it took |
| `Crew.CountsTheHour` | backend/app/agent/graph.py:255-263 | What it counts are the borrower's proposals since an hour before it fixed its instant |
| `Simulator.Simulate` | backend/app/core/simulator.py:46-105 | Under any limits read, at most the highest of them plus one dry-runs, of the pairs listed; a success returns exactly the last pair; a raising quote escapes, a success disagrees with the plan it leaves, and the pair reported is untried, each under an exact condition |
| `Simulator.QuoteCanEscape` | backend/app/core/simulator.py:80-89 | A call whose quote raises and escapes, for any plan |
| `Simulator.PlanCanStayBehind` | backend/app/core/simulator.py:65-73 | A call that reports a bumped pair and leaves the plan as it was, for any plan of at least fifty units |
| `Simulator.LimitCanCutOff` | backend/app/core/simulator.py:54-105 | A call whose limit is lowered while it is quoting reports a pair it has not tried |
| `Simulator.FixedIsNotCutOff` | backend/app/core/simulator.py:54-88 | Under a fixed limit the pair reported is untried exactly when the limit is negative |
| `Simulator.OneBumpReaches` | backend/app/core/simulator.py:80-81 | One bump of a sized repayment reaches the target as soon as the two percent are worth one base unit |
| `Simulator.BumpBounds` | backend/app/core/simulator.py:80-88 | n bumps multiply the repayment by at most 1.02^n, and the floors lose at most 50(1.02^n - 1) units in all |
| `Simulator.AmountIs` | backend/app/core/simulator.py:55 | The input allowed is the greatest whole amount within the slippage |
| `Simulator.BumpIs` | backend/app/core/simulator.py:81 | A bump is the greatest whole amount within two percent more |
| `Simulator.BumpableWhen` | backend/app/core/simulator.py:124-126 | Exactly the two under-sizing errors, anywhere in a message, ask for a larger size |
| `Simulator.EmptyRevertWhen` | backend/app/core/simulator.py:69 | An empty revert is told by the bare message or a quoted 0x; the third test of the code is a case of the second |
| `Failover.ChainClient.Call` | backend/app/chain/client.py:73-98 | Whatever preference is found at each offset, max_retries consecutive tries of the endpoint it gives; total failure exhausted every offset and moves nothing; success sticks to its endpoint; any other exception stops at once |
| `Failover.VisitsAllIffDistinct` | backend/app/chain/client.py:80-82 | A call that goes through all offsets visits every endpoint exactly when it visits none twice |
| `Failover.UndisturbedVisitsAll` | backend/app/chain/client.py:80-82 | With a preference nobody moves every endpoint is visited, once |
| `Failover.EndpointCanBeMissed` | backend/app/chain/client.py:80-86 | With two endpoints and a success elsewhere meanwhile, the first is visited twice and the second never |
| `Failover.EndpointsDistinct` | backend/app/chain/client.py:80-81 | The cyclic order repeats no endpoint |
| `Failover.EndpointsCover` | backend/app/chain/client.py:80-81 | The cyclic order misses no endpoint |
| `Guard.CollectNumbers` | backend/app/agent/guard.py:83-97 | The worklist ends and yields each non-boolean numeric leaf of a nested payload exactly once |
| `Guard.LeafIffPath` | backend/app/agent/guard.py:83-97 | The numbers collected are those found at any path inside, through lists and dictionaries alike |
| `Guard.Popped` | backend/app/agent/guard.py:87-96 | Popping an item and pushing its children loses and repeats no leaf, and shrinks the work |
| `Guard.Check` | backend/app/agent/guard.py:100-121 | No verdict exactly when an infinite value is allowed; otherwise flags exactly the figures no backed value renders to, in order |
| `Guard.FlaggedWhen` | backend/app/agent/guard.py:112-121 | A figure is flagged exactly when it is no small talk and every rendering of every observed value is further off than the tolerance, each time it appears |
| `Guard.RenderingsAre` | backend/app/agent/guard.py:66-80 | Every rendering is the value, or a multiple for its size, exact or rounded to the nearest step, or its whole part |
| `Guard.FormsAre` | backend/app/agent/guard.py:73-79 | The multiples and steps a value may be written with, by its size |
| `Guard.BareWhen` | backend/app/agent/guard.py:27-29 | Small talk is the whole numbers up to five and the powers of ten to ten thousand |
| `Guard.NumberGuard.Observe` | backend/app/agent/guard.py:134-136 | Observing adds exactly the payload's numeric leaves |
| `Guard.ObservingNeverFlags` | backend/app/agent/guard.py:124-143 | A text that passed still passes after further payloads exactly when those hold nothing infinite, and otherwise gets no verdict: it is never flagged |
| `Guard.LeavesAreBacked` | backend/app/agent/guard.py:124-143 | A text of figures quoted verbatim from observed payloads passes exactly when nothing infinite was observed, and otherwise gets no verdict |
| `Guard.NumberGuard.Verify` | backend/app/agent/guard.py:142-143 | The same over everything observed so far |
| `Facts.NoVerdictIffNoDebt` | backend/app/agent/graph.py:374-376 | Over the fact sheet of a registered borrower there is no verdict exactly when the borrower has no debt |
| `Facts.OnlyHfIsInfinite` | backend/app/agent/facts.py:126-148 | The only figure of a fact sheet that may be infinite is the health factor |
| `Facts.SheetLeaves` | backend/app/agent/facts.py:88-94 | The guard collects from a sheet exactly the figures the sheet lists itself, in order |

## Left out

- RPC, web3, ABI encoding, signing, receipts and the vault contract: every answer of a dry-run, submission, quote or read is arbitrary.
- Demo-mode signature resolution in `protect`: the model is of a deployment with it off.
- LLM calls, prompts, chat and tuning suggestions: what a crew decides besides the gate is an arbitrary choice.
- Floating-point rounding: finite floats are exact reals; an infinite value is its own case in the gate and in the guard.
- `Risk.RollingVolatility.SigmaSquared`: the square root is left off; breach probability, which feeds no decision here, is not modelled.
- The monitor's map from asset to volatility window: volatility enters `Pipeline.Evaluate` as a number.
- Extracting figures from text: a text is the sequence of its figures.
- SQL text, JSON columns and audit rows: a table row keeps its run, borrower, times, status, decision and transaction; each statement is one atomic step.
- Clock readings inside one atomic step are one instant.
- `tick` takes its registry copy as any list of registered entries, in any order, so it also covers passes over part of the registry.
- The texts of reasons and check details, apart from the cases they distinguish.
- `Failover.ChainClient.Call`: the pauses between tries are not modelled.
- Restarts: a proposal table may be inherited (`RateLimit`, `Approval`); the service starts with no lock and no count.
- Mandate validators are taken as given, as `RiskParams.Valid`; address checksums are not modelled.
- `RateLimit.WindowBound`: the remaining checks of the gate are one arbitrary answer per run.

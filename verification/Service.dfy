/** The protection service (backend/app/core/protection_service.py).

    Scheduling is cooperative: the code between two awaits is one atomic segment. Each segment is a
    function of the shared state, and a method of the service class proved to compute it. What an
    await yields is an argument: any value, an exception, or cancellation. */
module Service {
  import opened Arithmetic
  import opened Models
  import opened Observability
  import Breaker
  import InFlight

  /** Which optional collaborators the service was built with. */
  datatype Wiring = Wiring(simulator: bool, submitter: bool)

  datatype Shared = Shared(
    registry: map<Address, (RiskParams, string)>, states: map<Address, PositionState>,
    breaker: Breaker.State, inflight: InFlight.State, counts: Counts, autonomous: bool)

  datatype Reason =
    | BreakerPaused(trip: Option<Breaker.TripReason>)
    | InFlightOrCooling
    | NotViable(why: Option<string>)
    | AssessmentOnly
    | SimulationReverted(why: Option<string>)
    | DryRunOnly
    | Race
    | SubmissionFailed
    | Rescued(viaFallback: bool)
    | TxReverted

  datatype ProtectResponse = ProtectResponse(
    borrower: Address, state: PositionState, submitted: bool, txHash: Option<string>,
    assessment: Option<AssessmentResponse>, viaFallback: bool, reason: Reason)

  /** Where a `protect` coroutine is suspended, with the locals it still needs. */
  datatype Pc =
    | Evaluating(params: RiskParams, signature: string)
    | Simulating(params: RiskParams, signature: string, response: AssessmentResponse, plan: RescuePlan)
    | Submitting(params: RiskParams, signature: string, response: AssessmentResponse, plan: RescuePlan,
                 sim: SimulationResult)

  /** How an await resumes. The simulator may have updated the plan it was handed. */
  datatype Answer =
    | Evaluated(response: AssessmentResponse, plan: Option<RescuePlan>)
    | Simulated(sim: SimulationResult, simPlan: RescuePlan)
    | Receipt(sub: SubmissionResult)
    | Threw
    | Cancel

  predicate Fits(pc: Pc, a: Answer) {
    match pc
    case Evaluating(_, _) => a.Evaluated? || a.Threw? || a.Cancel?
    case Simulating(_, _, _, _) => a.Simulated? || a.Threw? || a.Cancel?
    case Submitting(_, _, _, _, _) => a.Receipt? || a.Threw? || a.Cancel?
  }

  datatype Outcome = Suspended(pc: Pc) | Returned(response: ProtectResponse) | Escaped(cancelled: bool)

  // ---- Segments as functions ---------------------------------------------------------------

  function Register(s: Shared, params: RiskParams, signature: string): Shared {
    var b := params.borrower;
    s.(registry := s.registry[b := (params, signature)],
       states := if b in s.states then s.states else s.states[b := Healthy])
  }

  function Unregister(s: Shared, b: Address): Shared {
    s.(registry := s.registry - {b}, states := s.states - {b})
  }

  function StateOf(s: Shared, b: Address): PositionState {
    if b in s.states then s.states[b] else Healthy
  }

  function Counted(s: Shared, c: Counter): Shared {
    s.(counts := Inc(s.counts, c))
  }

  function Marked(s: Shared, b: Address, st: PositionState): Shared {
    s.(states := s.states[b := st])
  }

  function Refuse(s: Shared, b: Address, assessment: Option<AssessmentResponse>, reason: Reason): Outcome {
    Returned(ProtectResponse(b, StateOf(s, b), false, None, assessment, false, reason))
  }

  /** Up to the first await. */
  function Begin(s: Shared, params: RiskParams, signature: string, now: real): (Shared, Outcome) {
    var b := params.borrower;
    var s := Register(s, params, signature);
    if s.breaker.paused then
      (Counted(s, BREAKER_BLOCKED), Refuse(s, b, None, BreakerPaused(s.breaker.reason)))
    else if !InFlight.CanStart(s.inflight, b, now) then
      (Counted(s, DOUBLE_SUBMIT_BLOCKED), Refuse(s, b, None, InFlightOrCooling))
    else
      (Marked(s, b, Assessing), Suspended(Evaluating(params, signature)))
  }

  function Resume(w: Wiring, s: Shared, pc: Pc, a: Answer, now: real): (Shared, Outcome)
    requires Fits(pc, a)
  {
    match pc
    case Evaluating(params, signature) => AfterEvaluate(w, s, params, signature, a)
    case Simulating(params, signature, response, plan) =>
      AfterSimulate(w, s, params, signature, response, a, now)
    case Submitting(params, _, response, _, _) => AfterSubmit(s, params.borrower, response, a, now)
  }

  function AfterEvaluate(w: Wiring, s: Shared, params: RiskParams, signature: string, a: Answer): (Shared, Outcome)
    requires a.Evaluated? || a.Threw? || a.Cancel?
  {
    var b := params.borrower;
    if !a.Evaluated? then (s, Escaped(a.Cancel?))
    else
      var s := Counted(s, ASSESSED);
      if a.plan.None? || !a.response.viable then
        var s := Counted(Marked(s, b, Declined), DECLINED);
        (s, Refuse(s, b, Some(a.response), NotViable(a.response.reason)))
      else if !w.simulator then
        var s := Marked(s, b, Ready);
        (s, Refuse(s, b, Some(a.response), AssessmentOnly))
      else
        (s, Suspended(Simulating(params, signature, a.response, a.plan.value)))
  }

  function AfterSimulate(w: Wiring, s: Shared, params: RiskParams, signature: string,
                         response: AssessmentResponse, a: Answer, now: real): (Shared, Outcome)
    requires a.Simulated? || a.Threw? || a.Cancel?
  {
    var b := params.borrower;
    if !a.Simulated? then (s, Escaped(a.Cancel?))
    else if !a.sim.success then
      var s := Counted(Marked(s, b, Declined), SIMULATED_FAIL);
      (s, Refuse(s, b, Some(response), SimulationReverted(a.sim.revertReason)))
    else
      var s := Counted(s, SIMULATED_OK);
      if !w.submitter then
        var s := Marked(s, b, Ready);
        (s, Refuse(s, b, Some(response), DryRunOnly))
      else if !InFlight.CanStart(s.inflight, b, now) then
        (Counted(s, DOUBLE_SUBMIT_BLOCKED), Refuse(s, b, Some(response), Race))
      else
        var s := s.(inflight := InFlight.Lock(s.inflight, b, now));
        (Counted(Marked(s, b, Submitted), SUBMITTED),
         Suspended(Submitting(params, signature, response, a.simPlan, a.sim)))
  }

  /** A failed rescue, as recorded for a reverted receipt and for a submitter that raised. */
  function Failed(s: Shared, b: Address): Shared {
    var s := Marked(Counted(s, REVERTED).(breaker := Breaker.Failure(s.breaker)), b, Reverted);
    if s.breaker.paused then Counted(s, BREAKER_TRIPPED) else s
  }

  function AfterSubmit(s: Shared, b: Address, response: AssessmentResponse, a: Answer, now: real): (Shared, Outcome)
    requires a.Receipt? || a.Threw? || a.Cancel?
  {
    var s :=
      if a.Cancel? then s
      else if a.Receipt? && a.sub.status == 1 then
        Marked(Counted(s, RESTORED).(breaker := Breaker.Success(s.breaker)), b, Restored)
      else if a.Receipt? then Failed(s, b)
      else Counted(Failed(s, b), ERRORS);
    var s := s.(inflight := InFlight.Release(s.inflight, b, now));
    var o :=
      if a.Cancel? then Escaped(true)
      else if a.Threw? then
        Returned(ProtectResponse(b, Reverted, false, None, Some(response), false, SubmissionFailed))
      else
        Returned(ProtectResponse(b, if a.sub.status == 1 then Restored else Reverted, a.sub.status == 1,
                                 Some(a.sub.txHash), Some(response), a.sub.viaFallback,
                                 if a.sub.status == 1 then Rescued(a.sub.viaFallback) else TxReverted));
    (s, o)
  }

  /** A poll refreshes the borrower's state unless a rescue is in flight. */
  function Polled(s: Shared, b: Address, st: Observation): Shared {
    if b in s.inflight.locked then s else Marked(s, b, st)
  }

  // ---- The worker's pass over the registry ---------------------------------------------------

  type Item = (Address, RiskParams, string)

  datatype Tick =
    | Polling(item: Item, rest: seq<Item>)
    | Sampling(item: Item, state: Observation, rest: seq<Item>)
    | Protecting(pc: Pc, rest: seq<Item>)
    | Done

  /** A poll yields the monitor's classification, an exception or cancellation. */
  datatype PollAnswer = Polls(state: Observation) | PollThrew | PollCancel

  /** How the `protect` a segment ran, if any, was left. */
  datatype Ran = Idle | Did(entered: bool, outcome: Outcome)

  function NextItem(rest: seq<Item>): Tick {
    if rest == [] then Done else Polling(rest[0], rest[1..])
  }

  /** The tail of one loop iteration: refresh the state, act when warranted, move on. */
  function Act(s: Shared, item: Item, st: Observation, rest: seq<Item>, now: real): (Shared, Tick, Ran) {
    var s := Polled(s, item.0, st);
    if st == Assessing && !s.breaker.paused && InFlight.CanStart(s.inflight, item.0, now) then
      var (s, o) := Begin(s, item.1, item.2, now);
      (s, if o.Suspended? then Protecting(o.pc, rest) else NextItem(rest), Did(true, o))
    else
      (s, NextItem(rest), Idle)
  }

  function AfterPoll(s: Shared, item: Item, rest: seq<Item>, a: PollAnswer, now: real): (Shared, Tick, Ran) {
    match a
    case Polls(st) =>
      if item.1.allowedCollaterals != [] then (s, Sampling(item, st, rest), Idle) else Act(s, item, st, rest, now)
    case PollThrew => (Counted(s, ERRORS), NextItem(rest), Idle)
    case PollCancel => (s, Done, Idle)
  }

  function AfterSample(s: Shared, item: Item, st: Observation, rest: seq<Item>, a: PollAnswer, now: real)
    : (Shared, Tick, Ran)
  {
    match a
    case Polls(_) => Act(s, item, st, rest, now)
    case PollThrew => (Counted(s, ERRORS), NextItem(rest), Idle)
    case PollCancel => (s, Done, Idle)
  }

  function AfterProtecting(w: Wiring, s: Shared, pc: Pc, rest: seq<Item>, a: Answer, now: real): (Shared, Tick, Ran)
    requires Fits(pc, a)
  {
    var (s, o) := Resume(w, s, pc, a, now);
    match o
    case Suspended(pc') => (s, Protecting(pc', rest), Did(false, o))
    case Returned(_) => (s, NextItem(rest), Did(false, o))
    case Escaped(cancelled) =>
      if cancelled then (s, Done, Did(false, o)) else (Counted(s, ERRORS), NextItem(rest), Did(false, o))
  }

  // ---- The service itself ----------------------------------------------------------------

  class ProtectionService {
    const wiring: Wiring
    const breaker: Breaker.CircuitBreaker
    const inflight: InFlight.InFlightRegistry
    const counters: Counters
    var registry: map<Address, (RiskParams, string)>
    var states: map<Address, PositionState>
    var autonomous: bool

    constructor (breaker: Breaker.CircuitBreaker, inflight: InFlight.InFlightRegistry, counters: Counters,
                 wiring: Wiring)
      ensures this.wiring == wiring
      ensures this.breaker == breaker && this.inflight == inflight && this.counters == counters
      ensures Abs() == Shared(map[], map[], breaker.Abs(), inflight.Abs(), counters.counts, true)
    {
      this.breaker, this.inflight, this.counters, this.wiring := breaker, inflight, counters, wiring;
      registry, states, autonomous := map[], map[], true;
    }

    ghost function Abs(): Shared
      reads this, breaker, inflight, counters
    {
      Shared(registry, states, breaker.Abs(), inflight.Abs(), counters.counts, autonomous)
    }

    method RegisterParams(params: RiskParams, signature: string)
      modifies this
      ensures Abs() == Register(old(Abs()), params, signature)
    {
      registry := registry[params.borrower := (params, signature)];
      if params.borrower !in states { states := states[params.borrower := Healthy]; }
    }

    method Forget(b: Address)
      modifies this
      ensures Abs() == Unregister(old(Abs()), b)
    {
      registry, states := registry - {b}, states - {b};
    }

    method Refused(b: Address, assessment: Option<AssessmentResponse>, reason: Reason) returns (o: Outcome)
      ensures o == Refuse(Abs(), b, assessment, reason)
    {
      var st := if b in states then states[b] else Healthy;
      o := Returned(ProtectResponse(b, st, false, None, assessment, false, reason));
    }

    /** `protect` up to the pipeline await. */
    method Protect(params: RiskParams, signature: string, now: real) returns (o: Outcome)
      modifies this, counters
      ensures (Abs(), o) == Begin(old(Abs()), params, signature, now)
    {
      var b := params.borrower;
      RegisterParams(params, signature);
      if !breaker.Allow() {
        counters.Add(BREAKER_BLOCKED);
        o := Refused(b, None, BreakerPaused(breaker.reason));
        return;
      }
      var startable := inflight.Startable(b, now);
      if !startable {
        counters.Add(DOUBLE_SUBMIT_BLOCKED);
        o := Refused(b, None, InFlightOrCooling);
        return;
      }
      states := states[b := Assessing];
      o := Suspended(Evaluating(params, signature));
    }

    /** `protect` from the pipeline's verdict to the dry-run await. */
    method ProtectEvaluated(params: RiskParams, signature: string, a: Answer) returns (o: Outcome)
      requires a.Evaluated? || a.Threw? || a.Cancel?
      modifies this, counters
      ensures (Abs(), o) == AfterEvaluate(wiring, old(Abs()), params, signature, a)
    {
      if !a.Evaluated? { return Escaped(a.Cancel?); }
      var b := params.borrower;
      counters.Add(ASSESSED);
      if a.plan.None? || !a.response.viable {
        states := states[b := Declined];
        counters.Add(DECLINED);
        o := Refused(b, Some(a.response), NotViable(a.response.reason));
      } else if !wiring.simulator {
        states := states[b := Ready];
        o := Refused(b, Some(a.response), AssessmentOnly);
      } else {
        o := Suspended(Simulating(params, signature, a.response, a.plan.value));
      }
    }

    /** `protect` from the dry-run's verdict to the submission await. */
    method ProtectSimulated(params: RiskParams, signature: string, response: AssessmentResponse, a: Answer, now: real)
      returns (o: Outcome)
      requires a.Simulated? || a.Threw? || a.Cancel?
      modifies this, counters, inflight
      ensures (Abs(), o) == AfterSimulate(wiring, old(Abs()), params, signature, response, a, now)
    {
      if !a.Simulated? { return Escaped(a.Cancel?); }
      var b := params.borrower;
      if !a.sim.success {
        states := states[b := Declined];
        counters.Add(SIMULATED_FAIL);
        o := Refused(b, Some(response), SimulationReverted(a.sim.revertReason));
        return;
      }
      counters.Add(SIMULATED_OK);
      if !wiring.submitter {
        states := states[b := Ready];
        o := Refused(b, Some(response), DryRunOnly);
        return;
      }
      var taken := inflight.Acquire(b, now);
      if !taken {
        counters.Add(DOUBLE_SUBMIT_BLOCKED);
        o := Refused(b, Some(response), Race);
        return;
      }
      states := states[b := Submitted];
      counters.Add(SUBMITTED);
      o := Suspended(Submitting(params, signature, response, a.simPlan, a.sim));
    }

    method RecordFailed(b: Address)
      modifies this, counters, breaker
      ensures Abs() == Failed(old(Abs()), b)
    {
      counters.Add(REVERTED);
      breaker.RecordFailure();
      states := states[b := Reverted];
      if breaker.paused { counters.Add(BREAKER_TRIPPED); }
    }

    /** `protect` from the receipt, an exception or cancellation to the end; the lock is released
        on every path. */
    method ProtectSubmitted(b: Address, response: AssessmentResponse, a: Answer, now: real) returns (o: Outcome)
      requires a.Receipt? || a.Threw? || a.Cancel?
      modifies this, counters, inflight, breaker
      ensures (Abs(), o) == AfterSubmit(old(Abs()), b, response, a, now)
    {
      if a.Cancel? {
        o := Escaped(true);
      } else if a.Threw? {
        RecordFailed(b);
        counters.Add(ERRORS);
        o := Returned(ProtectResponse(b, Reverted, false, None, Some(response), false, SubmissionFailed));
      } else {
        var ok := a.sub.status == 1;
        if ok {
          counters.Add(RESTORED);
          breaker.RecordSuccess();
          states := states[b := Restored];
        } else {
          RecordFailed(b);
        }
        o := Returned(ProtectResponse(b, states[b], ok, Some(a.sub.txHash), Some(response), a.sub.viaFallback,
                                      if ok then Rescued(a.sub.viaFallback) else TxReverted));
      }
      inflight.ReleaseNow(b, now);
    }

    /** `snapshot`, and one `tick` iteration's refresh, after the monitor has answered. */
    method Refresh(b: Address, st: Observation)
      modifies this
      ensures Abs() == Polled(old(Abs()), b, st)
    {
      if b !in inflight.locked { states := states[b := st]; }
    }

    /** One `tick` iteration from its last read to the next await. */
    method TickAct(item: Item, st: Observation, rest: seq<Item>, now: real) returns (t: Tick, ghost ran: Ran)
      modifies this, counters
      ensures (Abs(), t, ran) == Act(old(Abs()), item, st, rest, now)
    {
      Refresh(item.0, st);
      ran := Idle;
      var go := st == Assessing && breaker.Allow();
      if go { go := inflight.Startable(item.0, now); }
      t := if rest == [] then Done else Polling(rest[0], rest[1..]);
      if go {
        var o := Protect(item.1, item.2, now);
        if o.Suspended? { t := Protecting(o.pc, rest); }
        ran := Did(true, o);
      }
    }
  }
}

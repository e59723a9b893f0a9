/** Every interleaving of the protection service.

    Any number of `protect`, `snapshot` and `tick` coroutines are suspended at awaits; one step runs
    one of them to its next await, or is an operator action, or lets time pass. */
module KeeperSystem {
  import opened Arithmetic
  import opened Models
  import opened Observability
  import opened Service
  import opened BreakerHistory
  import Breaker
  import InFlight

  datatype Frame =
    | Api(pc: Pc)
    | Snapping(borrower: Address)
    | Ticking(tick: Tick)

  datatype Stage = Eval | Sim | Sub

  function StageOfPc(pc: Pc): Stage {
    match pc
    case Evaluating(_, _) => Eval
    case Simulating(_, _, _, _) => Sim
    case Submitting(_, _, _, _, _) => Sub
  }

  /** The `protect` call a frame is inside of. */
  function PcOf(f: Frame): Option<Pc> {
    match f
    case Api(pc) => Some(pc)
    case Ticking(Protecting(pc, _)) => Some(pc)
    case _ => None
  }

  predicate At(f: Frame, st: Stage) {
    PcOf(f).Some? && StageOfPc(PcOf(f).value) == st
  }

  /** How many `protect` calls have ended in each way; the last five by an exception or cancellation
      at an await. */
  datatype Endings = Endings(
    breakerBlocked: int, entryBlocked: int, notViable: int, assessmentOnly: int, simReverted: int,
    dryRunOnly: int, race: int, submitThrew: int, rescued: int, txReverted: int,
    evalThrew: int, evalCancelled: int, simThrew: int, simCancelled: int, subCancelled: int)

  const NONE_ENDED := Endings(0, 0, 0, 0, 0, 0, 0, 0, 0, 0, 0, 0, 0, 0, 0)

  function Told(e: Endings, r: Reason): Endings {
    match r
    case BreakerPaused(_) => e.(breakerBlocked := e.breakerBlocked + 1)
    case InFlightOrCooling => e.(entryBlocked := e.entryBlocked + 1)
    case NotViable(_) => e.(notViable := e.notViable + 1)
    case AssessmentOnly => e.(assessmentOnly := e.assessmentOnly + 1)
    case SimulationReverted(_) => e.(simReverted := e.simReverted + 1)
    case DryRunOnly => e.(dryRunOnly := e.dryRunOnly + 1)
    case Race => e.(race := e.race + 1)
    case SubmissionFailed => e.(submitThrew := e.submitThrew + 1)
    case Rescued(_) => e.(rescued := e.rescued + 1)
    case TxReverted => e.(txReverted := e.txReverted + 1)
  }

  function LeftAt(e: Endings, st: Stage, cancelled: bool): Endings {
    match st
    case Eval => if cancelled then e.(evalCancelled := e.evalCancelled + 1) else e.(evalThrew := e.evalThrew + 1)
    case Sim => if cancelled then e.(simCancelled := e.simCancelled + 1) else e.(simThrew := e.simThrew + 1)
    case Sub => e.(subCancelled := e.subCancelled + 1)
  }

  /** One completed hold of the in-flight lock. */
  datatype Rescue = Rescue(borrower: Address, start: real, end: real, cooldown: real)

  function VerdictOf(a: Answer, limit: int): Verdict {
    if a.Cancel? then Unknown else if a.Receipt? && a.sub.status == 1 then Good else Bad(limit)
  }

  /** The service, the suspended frames, and a record of what has happened. */
  datatype System = System(
    shared: Shared, now: real, frames: map<nat, Frame>,
    entered: nat, ended: Endings, history: seq<Rescue>, verdicts: seq<Verdict>)

  datatype Action =
    | CallProtect(id: nat, params: RiskParams, signature: string)
    | CallSnapshot(id: nat, borrower: Address)
    | StartTick(id: nat, items: seq<Item>)
    | AnswerProtect(id: nat, answer: Answer)
    | AnswerPoll(id: nat, poll: PollAnswer)
    | DoRegister(params: RiskParams, signature: string)
    | DoUnregister(borrower: Address)
    | ResetBreaker
    | TripBreaker(reason: Breaker.TripReason)
    | SetMax(max: int)
    | SetCooldown(seconds: real)
    | SetAutonomous(on: bool)
    | Advance(to: real)

  predicate Initial(s: System) {
    && s.frames == map[] && s.entered == 0 && s.ended == NONE_ENDED && s.history == [] && s.verdicts == []
    && s.shared.counts == ZERO
    && s.shared.inflight.locked == map[] && s.shared.inflight.cooldownUntil == map[]
    && s.shared.breaker.max >= 1 && s.shared.breaker.consecutive == 0 && !s.shared.breaker.paused && s.shared.breaker.reason.None?
  }

  predicate Enabled(s: System, a: Action) {
    match a
    case CallProtect(id, _, _) => id !in s.frames
    case CallSnapshot(id, _) => id !in s.frames
    case StartTick(id, items) =>
      && id !in s.frames && s.shared.autonomous
      && forall i :: 0 <= i < |items| ==>
           items[i].0 in s.shared.registry && s.shared.registry[items[i].0] == (items[i].1, items[i].2)
    case AnswerProtect(id, answer) =>
      id in s.frames && PcOf(s.frames[id]).Some? && Fits(PcOf(s.frames[id]).value, answer)
    case AnswerPoll(id, _) =>
      id in s.frames && !s.frames[id].Api? && PcOf(s.frames[id]).None? && s.frames[id] != Ticking(Done)
    case SetMax(max) => max >= 1
    case Advance(to) => to >= s.now
    case _ => true
  }

  function OfTick(t: Tick): Option<Frame> {
    if t.Done? then None else Some(Ticking(t))
  }

  function OfOutcome(o: Outcome): Option<Frame> {
    if o.Suspended? then Some(Api(o.pc)) else None
  }

  /** What running frame `id` does: new shared state, the frame it suspends in, the `protect` it ran. */
  function Segment(w: Wiring, s: System, a: Action): (Shared, Option<Frame>, Ran)
    requires Enabled(s, a)
    requires a.CallProtect? || a.CallSnapshot? || a.StartTick? || a.AnswerProtect? || a.AnswerPoll?
  {
    match a
    case CallProtect(_, params, signature) =>
      var (sh, o) := Begin(s.shared, params, signature, s.now); (sh, OfOutcome(o), Did(true, o))
    case CallSnapshot(_, b) => (s.shared, Some(Snapping(b)), Idle)
    case StartTick(_, items) => (s.shared, OfTick(NextItem(items)), Idle)
    case AnswerProtect(id, answer) =>
      (match s.frames[id]
       case Api(pc) =>
         var (sh, o) := Resume(w, s.shared, pc, answer, s.now); (sh, OfOutcome(o), Did(false, o))
       case Ticking(Protecting(pc, rest)) =>
         var (sh, t, ran) := AfterProtecting(w, s.shared, pc, rest, answer, s.now); (sh, OfTick(t), ran))
    case AnswerPoll(id, poll) =>
      (match s.frames[id]
       case Snapping(b) => (if poll.Polls? then Polled(s.shared, b, poll.state) else s.shared, None, Idle)
       case Ticking(Polling(item, rest)) =>
         var (sh, t, ran) := AfterPoll(s.shared, item, rest, poll, s.now); (sh, OfTick(t), ran)
       case Ticking(Sampling(item, st, rest)) =>
         var (sh, t, ran) := AfterSample(s.shared, item, st, rest, poll, s.now); (sh, OfTick(t), ran))
  }

  function StageAt(s: System, id: nat): Option<Stage> {
    if id in s.frames && PcOf(s.frames[id]).Some? then Some(StageOfPc(PcOf(s.frames[id]).value)) else None
  }

  function Tally(e: Endings, from: Option<Stage>, ran: Ran): Endings {
    match ran
    case Did(_, Returned(response)) => Told(e, response.reason)
    case Did(_, Escaped(cancelled)) => if from.Some? then LeftAt(e, from.value, cancelled) else e
    case _ => e
  }

  function Entered(ran: Ran): nat {
    match ran
    case Did(true, _) => 1
    case _ => 0
  }

  function Put(frames: map<nat, Frame>, id: nat, f: Option<Frame>): map<nat, Frame> {
    if f.Some? then (frames - {id})[id := f.value] else frames - {id}
  }

  /** The lock is released by whatever step resumes a submission. */
  function Released(s: System, id: nat): seq<Rescue> {
    if StageAt(s, id) == Some(Sub) then
      var b := PcOf(s.frames[id]).value.params.borrower;
      if b in s.shared.inflight.locked then
        [Rescue(b, s.shared.inflight.locked[b], s.now, s.shared.inflight.cooldown)]
      else []
    else []
  }

  /** What the chain answers to a submission in this step. */
  function Heard(s: System, a: Action): seq<Verdict> {
    if a.AnswerProtect? && StageAt(s, a.id) == Some(Sub) then [VerdictOf(a.answer, s.shared.breaker.max)] else []
  }

  function Step(w: Wiring, s: System, a: Action): System {
    if !Enabled(s, a) then s else
    match a
    case DoRegister(params, signature) => s.(shared := Register(s.shared, params, signature))
    case DoUnregister(b) => s.(shared := Unregister(s.shared, b))
    case ResetBreaker =>
      s.(shared := s.shared.(breaker := Breaker.Reset(s.shared.breaker)), verdicts := s.verdicts + [Reset])
    case TripBreaker(reason) =>
      s.(shared := s.shared.(breaker := Breaker.Trip(s.shared.breaker, reason)), verdicts := s.verdicts + [Hard(reason)])
    case SetMax(max) => s.(shared := s.shared.(breaker := s.shared.breaker.(max := max)))
    case SetCooldown(c) => s.(shared := s.shared.(inflight := InFlight.SetCooldown(s.shared.inflight, c)))
    case SetAutonomous(on) => s.(shared := s.shared.(autonomous := on))
    case Advance(to) => s.(now := to)
    case _ =>
      var (sh, f, ran) := Segment(w, s, a);
      System(sh, s.now, Put(s.frames, a.id, f),
             s.entered + Entered(ran),
             Tally(s.ended, StageAt(s, a.id), ran),
             s.history + Released(s, a.id),
             s.verdicts + Heard(s, a))
  }

  function Run(w: Wiring, s: System, acts: seq<Action>): System
    decreases |acts|
  {
    if acts == [] then s else Run(w, Step(w, s, acts[0]), acts[1..])
  }

  // ---- Counting frames ---------------------------------------------------------------------

  function Ids(frames: map<nat, Frame>, st: Stage): set<nat> {
    set id | id in frames && At(frames[id], st)
  }

  function Count(frames: map<nat, Frame>, st: Stage): nat {
    |Ids(frames, st)|
  }

  function PcIn(f: Option<Frame>): Option<Pc> {
    if f.Some? then PcOf(f.value) else None
  }

  function PcOut(o: Outcome): Option<Pc> {
    if o.Suspended? then Some(o.pc) else None
  }

  lemma CountMoves(frames: map<nat, Frame>, id: nat, f: Option<Frame>, st: Stage)
    ensures Count(Put(frames, id, f), st) + One(id in frames && At(frames[id], st))
         == Count(frames, st) + One(PcIn(f).Some? && StageOfPc(PcIn(f).value) == st)
  {
    Without(frames, id, st);
    Without(Put(frames, id, f), id, st);
    assert Put(frames, id, f) - {id} == frames - {id};
  }

  lemma Without(frames: map<nat, Frame>, id: nat, st: Stage)
    ensures Count(frames, st) == Count(frames - {id}, st) + One(id in frames && At(frames[id], st))
  {
    var all, rest := Ids(frames, st), Ids(frames - {id}, st);
    assert rest == all - {id};
    assert id in all <==> id in frames && At(frames[id], st);
  }

  lemma CountAll(frames: map<nat, Frame>, id: nat, f: Option<Frame>)
    ensures forall st :: Count(Put(frames, id, f), st) + One(id in frames && At(frames[id], st))
                      == Count(frames, st) + One(PcIn(f).Some? && StageOfPc(PcIn(f).value) == st)
  {
    forall st {
      CountMoves(frames, id, f, st);
    }
  }

  // ---- What one step can do ----------------------------------------------------------------

  predicate FrameAction(a: Action) {
    a.CallProtect? || a.CallSnapshot? || a.StartTick? || a.AnswerProtect? || a.AnswerPoll?
  }

  /** Resuming a `protect` is the same segment inside a tick and outside one, up to the worker's
      error counter. */
  lemma ResumeShape(w: Wiring, s: System, a: Action)
    requires Enabled(s, a) && a.AnswerProtect?
    ensures var (sh, f, ran) := Segment(w, s, a);
            var (sh', o) := Resume(w, s.shared, PcOf(s.frames[a.id]).value, a.answer, s.now);
            && ran == Did(false, o) && PcIn(f) == PcOut(o)
            && (sh == sh' || sh == Counted(sh', ERRORS))
  {
  }

  /** Lock and breaker are left alone, and so is what is known of a locked borrower. */
  ghost predicate LeavesLocks(s: Shared, s': Shared) {
    && s'.inflight == s.inflight && s'.breaker == s.breaker
    && (forall b :: b in s.inflight.locked && b in s.states ==> b in s'.states && s'.states[b] == s.states[b])
    && (forall b :: b in s.inflight.locked && b in s'.states && b !in s.states ==> s'.states[b] == Healthy)
  }

  /** A call is admitted only while the breaker is closed, and then waits for the pipeline. */
  predicate Admission(s: Shared, s': Shared, o: Outcome) {
    match o
    case Suspended(pc) => pc.Evaluating? && !s.breaker.paused && s'.counts == s.counts
    case Returned(r) =>
      && r.txHash.None?
      && (|| (r.reason.BreakerPaused? && s.breaker.paused && s'.counts == Inc(s.counts, BREAKER_BLOCKED))
          || (r.reason.InFlightOrCooling? && !s.breaker.paused && s'.counts == Inc(s.counts, DOUBLE_SUBMIT_BLOCKED)))
    case Escaped(_) => false
  }

  lemma BeginShape(s: Shared, params: RiskParams, signature: string, now: real)
    ensures var (s', o) := Begin(s, params, signature, now); LeavesLocks(s, s') && Admission(s, s', o)
  {
  }

  lemma ActShape(s: Shared, item: Item, st: Observation, rest: seq<Item>, now: real)
    ensures var (s', t, ran) := Act(s, item, st, rest, now);
            && LeavesLocks(s, s')
            && (ran.Idle? ==> !t.Protecting? && s'.counts == s.counts)
            && (ran.Did? ==> ran.entered && Admission(s, s', ran.outcome) &&
                             (if ran.outcome.Suspended? then t == Protecting(ran.outcome.pc, rest) else !t.Protecting?))
  {
    BeginShape(Polled(s, item.0, st), item.1, item.2, now);
    assert LeavesLocks(s, Polled(s, item.0, st));
  }

  /** Every frame step other than resuming a `protect` admits a call or changes nothing that counts. */
  lemma OtherShape(w: Wiring, s: System, a: Action)
    requires Enabled(s, a) && FrameAction(a) && !a.AnswerProtect?
    ensures StageAt(s, a.id).None?
    ensures var (sh, f, ran) := Segment(w, s, a);
            && LeavesLocks(s.shared, sh)
            && (ran.Idle? ==> PcIn(f).None? && (sh.counts == s.shared.counts || sh.counts == Inc(s.shared.counts, ERRORS)))
            && (ran.Did? ==> ran.entered && PcIn(f) == PcOut(ran.outcome) && Admission(s.shared, sh, ran.outcome))
  {
    match a
    case CallProtect(_, params, signature) => BeginShape(s.shared, params, signature, s.now);
    case AnswerPoll(id, poll) =>
      match s.frames[id] {
        case Ticking(Polling(item, rest)) =>
          if poll.Polls? { ActShape(s.shared, item, poll.state, rest, s.now); }
        case Ticking(Sampling(item, st, rest)) => ActShape(s.shared, item, st, rest, s.now);
        case _ =>
      }
    case _ =>
  }

  lemma AdmissionCounts(s: Shared, s': Shared, o: Outcome)
    requires Admission(s, s', o)
    ensures s'.counts.submitted == s.counts.submitted
    ensures s'.counts.restored == s.counts.restored && s'.counts.reverted == s.counts.reverted
    ensures s'.counts.breakerTripped == s.counts.breakerTripped
  {
  }

  /** Such a step starts no submission, ends none and leaves the breaker alone. */
  lemma OtherStep(w: Wiring, s: System, a: Action)
    requires Enabled(s, a) && FrameAction(a) && !a.AnswerProtect?
    ensures var t := Step(w, s, a);
            && t.shared.counts.submitted == s.shared.counts.submitted
            && t.shared.counts.restored == s.shared.counts.restored
            && t.shared.counts.reverted == s.shared.counts.reverted
            && t.shared.counts.breakerTripped == s.shared.counts.breakerTripped
            && t.shared.breaker == s.shared.breaker && t.verdicts == s.verdicts
  {
    var (sh, f, ran) := Segment(w, s, a);
    OtherShape(w, s, a);
    if ran.Did? { AdmissionCounts(s.shared, sh, ran.outcome); }
    assert Step(w, s, a).shared == sh;
    assert s.verdicts + [] == s.verdicts;
  }

  // ---- Flow conservation -------------------------------------------------------------------

  /** Every call that entered is accounted for, counter by counter. */
  predicate Balanced(c: Counts, eval: nat, sim: nat, sub: nat, entered: nat, e: Endings) {
    && c.submitted == c.restored + c.reverted + sub + e.subCancelled
    && c.simulatedOk == e.dryRunOnly + e.race + c.submitted
    && c.assessed == c.declined + e.assessmentOnly + sim + e.simThrew + e.simCancelled
                     + c.simulatedFail + c.simulatedOk
    && entered == c.breakerBlocked + e.entryBlocked + eval + e.evalThrew + e.evalCancelled + c.assessed
    && c.doubleSubmitBlocked == e.entryBlocked + e.race
    && c.breakerTripped <= c.reverted
    && c.breakerBlocked == e.breakerBlocked && c.declined == e.notViable && c.simulatedFail == e.simReverted
    && c.restored == e.rescued && c.reverted == e.txReverted + e.submitThrew
  }

  lemma AdmissionBalanced(s: Shared, s': Shared, o: Outcome, eval: nat, sim: nat, sub: nat, entered: nat, e: Endings)
    requires Balanced(s.counts, eval, sim, sub, entered, e) && Admission(s, s', o)
    ensures Balanced(s'.counts, eval + One(o.Suspended?), sim, sub, entered + 1, Tally(e, None, Did(true, o)))
  {
  }

  /** How an evaluation's end moves the counters, by how the call goes on. */
  ghost predicate EvaluationEnds(a: Answer, c: Counts, c': Counts, o: Outcome) {
    || (!a.Evaluated? && c' == c && o == Escaped(a.Cancel?))
    || (o.Returned? && o.response.reason.NotViable? && c' == Inc(Inc(c, ASSESSED), DECLINED))
    || (o.Returned? && o.response.reason.AssessmentOnly? && c' == Inc(c, ASSESSED))
    || (o.Suspended? && o.pc.Simulating? && c' == Inc(c, ASSESSED))
  }

  lemma EvaluateShape(w: Wiring, s: Shared, params: RiskParams, signature: string, a: Answer)
    requires a.Evaluated? || a.Threw? || a.Cancel?
    ensures var (s', o) := AfterEvaluate(w, s, params, signature, a); EvaluationEnds(a, s.counts, s'.counts, o)
  {
  }

  lemma EvaluateBalanced(a: Answer, c: Counts, c': Counts, o: Outcome,
                         eval: nat, sim: nat, sub: nat, entered: nat, e: Endings)
    requires EvaluationEnds(a, c, c', o) && Balanced(c, eval + 1, sim, sub, entered, e)
    ensures Balanced(c', eval, sim + One(o.Suspended?), sub, entered, Tally(e, Some(Eval), Did(false, o)))
  {
  }

  /** How a simulation's end moves the counters, by how the call goes on. */
  ghost predicate SimulationEnds(a: Answer, c: Counts, c': Counts, o: Outcome) {
    || (!a.Simulated? && c' == c && o == Escaped(a.Cancel?))
    || (o.Returned? && o.response.reason.SimulationReverted? && c' == Inc(c, SIMULATED_FAIL))
    || (o.Returned? && o.response.reason.DryRunOnly? && c' == Inc(c, SIMULATED_OK))
    || (o.Returned? && o.response.reason.Race? && c' == Inc(Inc(c, SIMULATED_OK), DOUBLE_SUBMIT_BLOCKED))
    || (o.Suspended? && o.pc.Submitting? && c' == Inc(Inc(c, SIMULATED_OK), SUBMITTED))
  }

  lemma SimulateShape(w: Wiring, s: Shared, params: RiskParams, signature: string, response: AssessmentResponse,
                      a: Answer, now: real)
    requires a.Simulated? || a.Threw? || a.Cancel?
    ensures var (s', o) := AfterSimulate(w, s, params, signature, response, a, now);
            SimulationEnds(a, s.counts, s'.counts, o)
  {
  }

  lemma SimulateBalanced(a: Answer, c: Counts, c': Counts, o: Outcome,
                         eval: nat, sim: nat, sub: nat, entered: nat, e: Endings)
    requires SimulationEnds(a, c, c', o) && Balanced(c, eval, sim + 1, sub, entered, e)
    ensures Balanced(c', eval, sim, sub + One(o.Suspended?), entered, Tally(e, Some(Sim), Did(false, o)))
  {
  }

  /** What a submission's end does to the counters; `tripped` says the breaker is paused after it. */
  function SubmitCounts(c: Counts, a: Answer, tripped: bool): Counts {
    if a.Cancel? then c
    else if a.Receipt? && a.sub.status == 1 then Inc(c, RESTORED)
    else
      var c := Inc(c, REVERTED);
      var c := if tripped then Inc(c, BREAKER_TRIPPED) else c;
      if a.Threw? then Inc(c, ERRORS) else c
  }

  lemma SubmitCountsBalanced(c: Counts, a: Answer, o: Outcome, tripped: bool,
                             eval: nat, sim: nat, sub: nat, entered: nat, e: Endings)
    requires a.Receipt? || a.Threw? || a.Cancel?
    requires if a.Cancel? then o == Escaped(true) else
               && o.Returned?
               && o.response.reason == (if a.Threw? then SubmissionFailed
                                        else if a.sub.status == 1 then Rescued(a.sub.viaFallback) else TxReverted)
    requires Balanced(c, eval, sim, sub + 1, entered, e)
    ensures Balanced(SubmitCounts(c, a, tripped), eval, sim, sub, entered, Tally(e, Some(Sub), Did(false, o)))
  {
  }

  lemma SubmitBalanced(s: Shared, b: Address, response: AssessmentResponse, a: Answer, now: real,
                       eval: nat, sim: nat, sub: nat, entered: nat, e: Endings)
    requires a.Receipt? || a.Threw? || a.Cancel?
    requires Balanced(s.counts, eval, sim, sub + 1, entered, e)
    ensures var (s', o) := AfterSubmit(s, b, response, a, now);
            && !o.Suspended?
            && Balanced(s'.counts, eval, sim, sub, entered, Tally(e, Some(Sub), Did(false, o)))
  {
    var (s', o) := AfterSubmit(s, b, response, a, now);
    var tripped := Breaker.Failure(s.breaker).paused;
    assert s'.counts == SubmitCounts(s.counts, a, tripped) by {
      assert Failed(s, b).counts == if tripped then Inc(Inc(s.counts, REVERTED), BREAKER_TRIPPED) else Inc(s.counts, REVERTED);
    }
    SubmitCountsBalanced(s.counts, a, o, tripped, eval, sim, sub, entered, e);
  }

  lemma ResumeBalanced(w: Wiring, s: Shared, pc: Pc, a: Answer, now: real,
                       eval: nat, sim: nat, sub: nat, entered: nat, e: Endings)
    requires Fits(pc, a)
    requires Balanced(s.counts, eval + One(pc.Evaluating?), sim + One(pc.Simulating?), sub + One(pc.Submitting?),
                      entered, e)
    ensures var (s', o) := Resume(w, s, pc, a, now);
            && (o.Suspended? ==> !o.pc.Evaluating?)
            && Balanced(s'.counts, eval, sim + One(o.Suspended? && o.pc.Simulating?),
                        sub + One(o.Suspended? && o.pc.Submitting?), entered,
                        Tally(e, Some(StageOfPc(pc)), Did(false, o)))
  {
    match pc
    case Evaluating(params, signature) =>
      var (s', o) := AfterEvaluate(w, s, params, signature, a);
      EvaluateShape(w, s, params, signature, a);
      EvaluateBalanced(a, s.counts, s'.counts, o, eval, sim, sub, entered, e);
    case Simulating(params, signature, response, _) =>
      var (s', o) := AfterSimulate(w, s, params, signature, response, a, now);
      SimulateShape(w, s, params, signature, response, a, now);
      SimulateBalanced(a, s.counts, s'.counts, o, eval, sim, sub, entered, e);
    case Submitting(params, _, response, _, _) =>
      SubmitBalanced(s, params.borrower, response, a, now, eval, sim, sub, entered, e);
  }

  predicate AllBalanced(s: System) {
    Balanced(s.shared.counts, Count(s.frames, Eval), Count(s.frames, Sim), Count(s.frames, Sub), s.entered, s.ended)
  }

  lemma ResumeKeepsBalance(w: Wiring, s: System, a: Action)
    requires AllBalanced(s) && Enabled(s, a) && a.AnswerProtect?
    ensures AllBalanced(Step(w, s, a))
  {
    var (sh, f, ran) := Segment(w, s, a);
    CountAll(s.frames, a.id, f);
    ResumeShape(w, s, a);
    var pc := PcOf(s.frames[a.id]).value;
    ResumeBalanced(w, s.shared, pc, a.answer, s.now, Count(s.frames, Eval) - One(pc.Evaluating?),
                   Count(s.frames, Sim) - One(pc.Simulating?), Count(s.frames, Sub) - One(pc.Submitting?),
                   s.entered, s.ended);
  }

  lemma OtherKeepsBalance(w: Wiring, s: System, a: Action)
    requires AllBalanced(s) && Enabled(s, a) && FrameAction(a) && !a.AnswerProtect?
    ensures AllBalanced(Step(w, s, a))
  {
    var (sh, f, ran) := Segment(w, s, a);
    CountAll(s.frames, a.id, f);
    OtherShape(w, s, a);
    if ran.Did? {
      AdmissionBalanced(s.shared, sh, ran.outcome, Count(s.frames, Eval), Count(s.frames, Sim),
                        Count(s.frames, Sub), s.entered, s.ended);
    }
  }

  lemma StepBalanced(w: Wiring, s: System, a: Action)
    requires AllBalanced(s)
    ensures AllBalanced(Step(w, s, a))
  {
    if Enabled(s, a) && a.AnswerProtect? {
      ResumeKeepsBalance(w, s, a);
    } else if Enabled(s, a) && FrameAction(a) {
      OtherKeepsBalance(w, s, a);
    }
  }

  // ---- The in-flight lock ------------------------------------------------------------------

  /** Frame `id` is waiting on a submission for borrower `b`. */
  predicate Holds(frames: map<nat, Frame>, id: nat, b: Address) {
    id in frames && At(frames[id], Sub) && PcOf(frames[id]).value.params.borrower == b
  }

  /** The lock is exactly the set of borrowers with a submission outstanding, one each. */
  ghost predicate Exclusive(s: System) {
    && (forall id, b :: Holds(s.frames, id, b) ==> b in s.shared.inflight.locked)
    && (forall b :: b in s.shared.inflight.locked ==> exists id :: Holds(s.frames, id, b))
    && (forall id, id', b :: Holds(s.frames, id, b) && Holds(s.frames, id', b) ==> id == id')
  }

  /** A submission is only ever reached with both collaborators configured. */
  predicate Wired(w: Wiring, s: System) {
    forall id :: id in s.frames ==>
      && (At(s.frames[id], Sim) ==> w.simulator)
      && (At(s.frames[id], Sub) ==> w.simulator && w.submitter)
  }

  /** What resuming a `protect` does to lock, breaker and frame, stage by stage. */
  predicate Progress(w: Wiring, s: Shared, s': Shared, pc: Pc, o: Outcome, now: real) {
    var b := pc.params.borrower;
    match pc
    case Evaluating(_, _) =>
      && s'.inflight == s.inflight && s'.breaker == s.breaker
      && (o.Suspended? ==> o.pc.Simulating? && o.pc.params == pc.params && w.simulator)
      && s'.states == (if o.Suspended? || o.Escaped? then s.states
                       else s.states[b := if o.response.state == Ready then Ready else Declined])
      && (o.Returned? && o.response.state == Ready ==> !w.simulator)
    case Simulating(_, _, _, _) =>
      && s'.breaker == s.breaker
      && (if o.Suspended? then
            && o.pc.Submitting? && o.pc.params == pc.params && w.submitter
            && InFlight.CanStart(s.inflight, b, now) && s'.inflight == InFlight.Lock(s.inflight, b, now)
            && s'.states == s.states[b := Submitted]
          else
            && s'.inflight == s.inflight
            && (s'.states == s.states || s'.states == s.states[b := Declined]
                || (!w.submitter && s'.states == s.states[b := Ready])))
    case Submitting(_, _, _, _, _) =>
      && !o.Suspended? && s'.inflight == InFlight.Release(s.inflight, b, now)
      && (s'.breaker == s.breaker || s'.breaker == Breaker.Success(s.breaker) || s'.breaker == Breaker.Failure(s.breaker))
      && (s'.states == s.states || s'.states == s.states[b := Restored] || s'.states == s.states[b := Reverted])
  }

  lemma ResumeProgress(w: Wiring, s: Shared, pc: Pc, a: Answer, now: real)
    requires Fits(pc, a)
    ensures var (s', o) := Resume(w, s, pc, a, now); Progress(w, s, s', pc, o, now)
  {
    match pc
    case Evaluating(params, signature) =>
    case Simulating(params, signature, response, plan) =>
      if !a.Simulated? {
      } else if !a.sim.success {
      } else if !w.submitter {
      } else {
      }
    case Submitting(params, _, response, _, _) =>
      if a.Receipt? {
      } else {
      }
  }

  lemma HoldsAfter(frames: map<nat, Frame>, id: nat, f: Option<Frame>)
    ensures forall i, b :: Holds(Put(frames, id, f), i, b) <==>
              if i != id then Holds(frames, i, b)
              else PcIn(f).Some? && PcIn(f).value.Submitting? && PcIn(f).value.params.borrower == b
  {
  }

  lemma ResumeKeepsExclusive(w: Wiring, s: System, a: Action)
    requires Exclusive(s) && Wired(w, s) && Enabled(s, a) && a.AnswerProtect?
    ensures Exclusive(Step(w, s, a)) && Wired(w, Step(w, s, a))
  {
    var s', pc := Step(w, s, a), PcOf(s.frames[a.id]).value;
    HoldsAfter(s.frames, a.id, Segment(w, s, a).1);
    ResumeShape(w, s, a);
    ResumeProgress(w, s.shared, pc, a.answer, s.now);
    if pc.Submitting? { assert Holds(s.frames, a.id, pc.params.borrower); }
    forall b | b in s'.shared.inflight.locked
      ensures exists id :: Holds(s'.frames, id, b)
    {
      if b in s.shared.inflight.locked {
        var id :| Holds(s.frames, id, b);
        assert Holds(s'.frames, id, b);
      } else {
        assert Holds(s'.frames, a.id, b);
      }
    }
  }

  lemma OtherKeepsExclusive(w: Wiring, s: System, a: Action)
    requires Exclusive(s) && Wired(w, s) && Enabled(s, a) && FrameAction(a) && !a.AnswerProtect?
    ensures Exclusive(Step(w, s, a)) && Wired(w, Step(w, s, a))
  {
    var s' := Step(w, s, a);
    HoldsAfter(s.frames, a.id, Segment(w, s, a).1);
    OtherShape(w, s, a);
    assert forall i, b :: Holds(s.frames, i, b) ==> i != a.id;
    forall b | b in s'.shared.inflight.locked
      ensures exists id :: Holds(s'.frames, id, b)
    {
      var id :| Holds(s.frames, id, b);
      assert Holds(s'.frames, id, b);
    }
  }

  lemma StepExclusive(w: Wiring, s: System, a: Action)
    requires Exclusive(s) && Wired(w, s)
    ensures Exclusive(Step(w, s, a)) && Wired(w, Step(w, s, a))
  {
    if Enabled(s, a) && a.AnswerProtect? {
      ResumeKeepsExclusive(w, s, a);
    } else if Enabled(s, a) && FrameAction(a) {
      OtherKeepsExclusive(w, s, a);
    } else {
      assert Step(w, s, a).frames == s.frames;
      assert Step(w, s, a).shared.inflight.locked == s.shared.inflight.locked;
    }
  }

  // ---- What is known of a borrower in flight ----------------------------------------------

  /** A racing call may decline, and a re-registration may reset, but nothing else overwrites the
      state of a borrower whose submission is outstanding. */
  ghost predicate InFlightStates(s: System) {
    forall b :: b in s.shared.inflight.locked && b in s.shared.states ==>
      s.shared.states[b] in {Submitted, Declined, Healthy}
  }

  lemma StepInFlightStates(w: Wiring, s: System, a: Action)
    requires Exclusive(s) && Wired(w, s) && InFlightStates(s)
    ensures InFlightStates(Step(w, s, a))
  {
    if Enabled(s, a) && a.AnswerProtect? {
      var pc := PcOf(s.frames[a.id]).value;
      ResumeShape(w, s, a);
      ResumeProgress(w, s.shared, pc, a.answer, s.now);
      if pc.params.borrower in s.shared.inflight.locked {
        var id :| Holds(s.frames, id, pc.params.borrower);
      }
    } else if Enabled(s, a) && FrameAction(a) {
      OtherShape(w, s, a);
    }
  }

  // ---- Cooldown ----------------------------------------------------------------------------

  /** The completed rescues of one borrower, oldest first. */
  function Of(h: seq<Rescue>, b: Address): seq<Rescue>
    decreases |h|
  {
    if h == [] then []
    else Of(h[..|h| - 1], b) + (if h[|h| - 1].borrower == b then [h[|h| - 1]] else [])
  }

  lemma OfAppend(h: seq<Rescue>, r: Rescue, b: Address)
    ensures Of(h + [r], b) == Of(h, b) + (if r.borrower == b then [r] else [])
  {
  }

  /** Each rescue starts no earlier than the previous one's end plus the cooldown in force then. */
  ghost predicate Spaced(r: seq<Rescue>) {
    && (forall i :: 0 <= i < |r| ==> r[i].start <= r[i].end)
    && (forall i, j :: 0 <= i < j < |r| && j == i + 1 ==> r[i].end + r[i].cooldown <= r[j].start)
  }

  /** The registry agrees with the completed rescues `r` of borrower `b`. */
  ghost predicate Cools(r: seq<Rescue>, f: InFlight.State, now: real, b: Address) {
    && Spaced(r)
    && (b in f.locked ==> f.locked[b] <= now)
    && (r == [] ==> b !in f.cooldownUntil)
    && (r != [] ==>
          var last := r[|r| - 1];
          && last.end <= now && b in f.cooldownUntil && f.cooldownUntil[b] == last.end + last.cooldown
          && (b in f.locked ==> last.end + last.cooldown <= f.locked[b]))
  }

  lemma LockCools(r: seq<Rescue>, f: InFlight.State, now: real, b: Address, taken: Address)
    requires Cools(r, f, now, b) && InFlight.CanStart(f, taken, now)
    ensures Cools(r, InFlight.Lock(f, taken, now), now, b)
  {
  }

  lemma ReleaseCools(r: seq<Rescue>, f: InFlight.State, now: real, b: Address, freed: Address)
    requires Cools(r, f, now, b) && freed in f.locked
    ensures Cools(r + (if freed == b then [Rescue(b, f.locked[freed], now, f.cooldown)] else []),
                  InFlight.Release(f, freed, now), now, b)
  {
  }

  ghost predicate CoolsDown(s: System, b: Address) {
    Cools(Of(s.history, b), s.shared.inflight, s.now, b)
  }

  ghost predicate AllCoolDown(s: System) {
    forall b :: CoolsDown(s, b)
  }

  lemma StepCoolsDown(w: Wiring, s: System, a: Action)
    requires Exclusive(s) && AllCoolDown(s)
    ensures AllCoolDown(Step(w, s, a))
  {
    var s' := Step(w, s, a);
    forall b
      ensures CoolsDown(s', b)
    {
      assert CoolsDown(s, b);
      if Enabled(s, a) && a.AnswerProtect? {
        ResumeCoolsDown(w, s, a, b);
      } else if Enabled(s, a) && FrameAction(a) {
        OtherShape(w, s, a);
        assert s'.history == s.history;
      }
    }
  }

  lemma ResumeCoolsDown(w: Wiring, s: System, a: Action, b: Address)
    requires Exclusive(s) && CoolsDown(s, b) && Enabled(s, a) && a.AnswerProtect?
    ensures CoolsDown(Step(w, s, a), b)
  {
    var s', pc := Step(w, s, a), PcOf(s.frames[a.id]).value;
    ResumeShape(w, s, a);
    ResumeProgress(w, s.shared, pc, a.answer, s.now);
    var f, taken := s.shared.inflight, pc.params.borrower;
    if pc.Submitting? {
      assert Holds(s.frames, a.id, taken);
      OfAppend(s.history, Rescue(taken, f.locked[taken], s.now, f.cooldown), b);
      ReleaseCools(Of(s.history, b), f, s.now, b, taken);
    } else {
      assert s'.history == s.history;
      if s'.shared.inflight != f { LockCools(Of(s.history, b), f, s.now, b, taken); }
    }
  }

  /** Nothing is missing from the record: every submission that ended is in it. */
  predicate Recorded(s: System) {
    |s.history| == s.ended.submitThrew + s.ended.rescued + s.ended.txReverted + s.ended.subCancelled
  }

  lemma ResumeRecorded(w: Wiring, s: System, a: Action)
    requires Exclusive(s) && Recorded(s) && Enabled(s, a) && a.AnswerProtect?
    ensures Recorded(Step(w, s, a))
  {
    var pc := PcOf(s.frames[a.id]).value;
    ResumeShape(w, s, a);
    ResumeEnding(w, s.shared, pc, a.answer, s.now);
    if pc.Submitting? {
      assert Holds(s.frames, a.id, pc.params.borrower);
    }
  }

  lemma StepRecorded(w: Wiring, s: System, a: Action)
    requires Exclusive(s) && Recorded(s)
    ensures Recorded(Step(w, s, a))
  {
    if Enabled(s, a) && a.AnswerProtect? {
      ResumeRecorded(w, s, a);
    } else if Enabled(s, a) && FrameAction(a) {
      OtherShape(w, s, a);
    }
  }

  /** Only a submission's end is told as a submission's end. */
  lemma ResumeEnding(w: Wiring, s: Shared, pc: Pc, a: Answer, now: real)
    requires Fits(pc, a)
    ensures var o := Resume(w, s, pc, a, now).1;
            var told := o.Returned? && (o.response.reason.SubmissionFailed? || o.response.reason.Rescued?
                                        || o.response.reason.TxReverted?);
            if pc.Submitting? then told || o == Escaped(true) else !told
  {
  }

  // ---- The breaker against what the chain answered --------------------------------------------

  ghost predicate Judged(s: System) {
    Tallies(s.verdicts, s.shared.breaker, s.shared.counts)
  }

  /** The event of resuming this call. */
  function EventOf(s: Shared, pc: Pc, a: Answer): Verdict {
    if pc.Submitting? then VerdictOf(a, s.breaker.max) else Unknown
  }

  /** A submission's end moves breaker and counters as the chain's answer says, and nothing else does. */
  predicate Judges(s: Shared, s': Shared, x: Verdict) {
    && s'.breaker == Judge(s.breaker, x)
    && s'.counts.restored == s.counts.restored + One(x.Good?)
    && s'.counts.reverted == s.counts.reverted + One(x.Bad?)
    && s'.counts.breakerTripped == s.counts.breakerTripped + One(x.Bad? && s'.breaker.paused)
  }

  lemma SubmitJudges(s: Shared, b: Address, response: AssessmentResponse, a: Answer, now: real)
    requires a.Receipt? || a.Threw? || a.Cancel?
    ensures Judges(s, AfterSubmit(s, b, response, a, now).0, VerdictOf(a, s.breaker.max))
  {
    if a.Cancel? {
    } else if a.Receipt? && a.sub.status == 1 {
    } else if a.Threw? {
    } else {
    }
  }

  lemma SimulateJudges(w: Wiring, s: Shared, params: RiskParams, signature: string, response: AssessmentResponse,
                       a: Answer, now: real)
    requires a.Simulated? || a.Threw? || a.Cancel?
    ensures Judges(s, AfterSimulate(w, s, params, signature, response, a, now).0, Unknown)
  {
  }

  lemma EvaluateJudges(w: Wiring, s: Shared, params: RiskParams, signature: string, a: Answer)
    requires a.Evaluated? || a.Threw? || a.Cancel?
    ensures Judges(s, AfterEvaluate(w, s, params, signature, a).0, Unknown)
  {
  }

  lemma ResumeJudges(w: Wiring, s: Shared, pc: Pc, a: Answer, now: real)
    requires Fits(pc, a)
    ensures Judges(s, Resume(w, s, pc, a, now).0, EventOf(s, pc, a))
  {
    match pc
    case Evaluating(params, signature) => EvaluateJudges(w, s, params, signature, a);
    case Simulating(params, signature, response, _) => SimulateJudges(w, s, params, signature, response, a, now);
    case Submitting(params, _, response, _, _) => SubmitJudges(s, params.borrower, response, a, now);
  }

  lemma ResumeJudged(w: Wiring, s: System, a: Action)
    requires Judged(s) && Enabled(s, a) && a.AnswerProtect?
    ensures Judged(Step(w, s, a))
  {
    var t, x := Step(w, s, a), EventOf(s.shared, PcOf(s.frames[a.id]).value, a.answer);
    ResumeCounts(w, s, a);
    ResumeHears(w, s, a);
    if PcOf(s.frames[a.id]).value.Submitting? {
      TallyAdds(s.verdicts, x, s.shared.breaker, s.shared.counts, t.shared.counts);
    }
  }

  lemma ResumeHears(w: Wiring, s: System, a: Action)
    requires Enabled(s, a) && a.AnswerProtect?
    ensures Step(w, s, a).verdicts
         == if PcOf(s.frames[a.id]).value.Submitting?
            then s.verdicts + [VerdictOf(a.answer, s.shared.breaker.max)] else s.verdicts
  {
    assert s.verdicts + [] == s.verdicts;
  }

  /** The same of a step of the system. */
  lemma ResumeCounts(w: Wiring, s: System, a: Action)
    requires Enabled(s, a) && a.AnswerProtect?
    ensures Judges(s.shared, Step(w, s, a).shared, EventOf(s.shared, PcOf(s.frames[a.id]).value, a.answer))
  {
    ResumeShape(w, s, a);
    ResumeJudges(w, s.shared, PcOf(s.frames[a.id]).value, a.answer, s.now);
  }

  lemma OperatorJudged(w: Wiring, s: System, a: Action)
    requires Judged(s) && !FrameAction(a)
    ensures Judged(Step(w, s, a))
  {
    OperatorCounts(w, s, a);
    if a.ResetBreaker? {
      TallyAdds(s.verdicts, Reset, s.shared.breaker, s.shared.counts, s.shared.counts);
    } else if a.TripBreaker? {
      TallyAdds(s.verdicts, Hard(a.reason), s.shared.breaker, s.shared.counts, s.shared.counts);
    } else if a.SetMax? {
      ThresholdTallies(s.verdicts, s.shared.breaker, s.shared.counts, a.max);
    }
  }

  lemma OperatorCounts(w: Wiring, s: System, a: Action)
    requires !FrameAction(a)
    ensures var t := Step(w, s, a);
            && t.shared.counts == s.shared.counts
            && t.verdicts == s.verdicts + (if a.ResetBreaker? then [Reset] else if a.TripBreaker? then [Hard(a.reason)] else [])
            && t.shared.breaker == (if a.ResetBreaker? then Judge(s.shared.breaker, Reset)
                                    else if a.TripBreaker? then Judge(s.shared.breaker, Hard(a.reason))
                                    else if a.SetMax? && a.max >= 1 then s.shared.breaker.(max := a.max)
                                    else s.shared.breaker)
  {
    assert s.verdicts + [] == s.verdicts;
  }

  lemma StepJudged(w: Wiring, s: System, a: Action)
    requires Judged(s)
    ensures Judged(Step(w, s, a))
  {
    if !FrameAction(a) {
      OperatorJudged(w, s, a);
    } else if Enabled(s, a) && a.AnswerProtect? {
      ResumeJudged(w, s, a);
    } else if Enabled(s, a) {
      OtherStep(w, s, a);
      OtherJudged(s, Step(w, s, a));
    }
  }

  lemma OtherJudged(s: System, t: System)
    requires Judged(s) && t.verdicts == s.verdicts && t.shared.breaker == s.shared.breaker
    requires t.shared.counts.restored == s.shared.counts.restored && t.shared.counts.reverted == s.shared.counts.reverted
    requires t.shared.counts.breakerTripped == s.shared.counts.breakerTripped
    ensures Judged(t)
  {
  }

  lemma {:induction false} RunJudged(w: Wiring, s: System, acts: seq<Action>)
    requires Judged(s)
    ensures Judged(Run(w, s, acts))
    decreases |acts|
  {
    if acts != [] {
      StepJudged(w, s, acts[0]);
      RunJudged(w, Step(w, s, acts[0]), acts[1..]);
    }
  }

  lemma {:induction false} AlwaysJudged(w: Wiring, s: System, acts: seq<Action>)
    requires Initial(s)
    ensures Judged(Run(w, s, acts))
  {
    InitialJudged(s);
    RunJudged(w, s, acts);
  }

  lemma InitialJudged(s: System)
    requires Initial(s)
    ensures Judged(s)
  {
    NothingTallied(s.verdicts, s.shared.breaker, s.shared.counts);
  }

  /** In every run the streak is exactly the failures since the last success or reset, as the chain
      answered them; the restored and reverted counters are its successes and failures, and trips the
      failures that left the breaker paused. A cancelled submission counts as none. */
  lemma {:induction false} StreakIsExact(w: Wiring, s: System, acts: seq<Action>)
    requires Initial(s)
    ensures var t := Run(w, s, acts);
            && t.shared.breaker.consecutive == Streak(t.verdicts)
            && t.shared.counts.restored == Goods(t.verdicts)
            && t.shared.counts.reverted == Bads(t.verdicts)
            && t.shared.counts.breakerTripped == Trips(t.verdicts)
  {
    AlwaysJudged(w, s, acts);
  }

  /** In every run the breaker is paused exactly when, since the last reset, a hard signal came in or some
      failure found the streak at the threshold then live. The reason shown is the last hard signal's;
      without one, the streak's. */
  lemma {:induction false} PausedExactlyWhen(w: Wiring, s: System, acts: seq<Action>)
    requires Initial(s)
    ensures var t := Run(w, s, acts);
            var v, b := t.verdicts, t.shared.breaker;
            && (b.paused <==> exists k :: SinceReset(v, k) && (v[k].Hard? || (v[k].Bad? && Streak(v[..k + 1]) >= v[k].limit)))
            && (forall k :: LastHard(v, k) ==> b.reason == Some(v[k].reason))
            && (b.paused && NoHard(v) ==> b.reason == Some(Breaker.ConsecutiveFailures))
            && (!b.paused ==> b.reason.None?)
  {
    AlwaysJudged(w, s, acts);
    var t := Run(w, s, acts);
    TalliesMean(t.verdicts, t.shared.breaker, t.shared.counts);
  }

  /** What a resumed call answers is true: it is about its borrower, its state is the one recorded, it
      claims a rescue exactly when the receipt says so, and quotes a transaction exactly when there is
      one. */
  lemma AnswersAreTrue(w: Wiring, s: Shared, pc: Pc, a: Answer, now: real)
    requires Fits(pc, a) && Resume(w, s, pc, a, now).1.Returned?
    ensures var (s', o) := Resume(w, s, pc, a, now);
            var r := o.response;
            && r.borrower == pc.params.borrower && r.state == StateOf(s', r.borrower)
            && (r.submitted <==> a.Receipt? && a.sub.status == 1)
            && r.txHash == (if a.Receipt? then Some(a.sub.txHash) else None)
            && (r.submitted ==> r.state == Restored && r.viaFallback == a.sub.viaFallback)
            && (pc.Submitting? && !r.submitted ==> r.state == Reverted)
            && r.assessment == Some(if a.Evaluated? then a.response else pc.response)
  {
  }

  /** A transaction and how it ended: as a receipt says, or as a caller is told. */
  datatype Report = Report(borrower: Address, txHash: string, ok: bool)

  /** The receipt that arrives in this step. */
  function Receipts(s: System, a: Action): seq<Report> {
    if Enabled(s, a) && a.AnswerProtect? && a.answer.Receipt? then
      [Report(PcOf(s.frames[a.id]).value.params.borrower, a.answer.sub.txHash, a.answer.sub.status == 1)]
    else []
  }

  /** The transaction a call answers with in this step. */
  function Reported(w: Wiring, s: System, a: Action): seq<Report> {
    if !Enabled(s, a) || !FrameAction(a) then []
    else
      match Segment(w, s, a).2
      case Did(_, Returned(r)) => if r.txHash.Some? then [Report(r.borrower, r.txHash.value, r.submitted)] else []
      case _ => []
  }

  function AllReceipts(w: Wiring, s: System, acts: seq<Action>): seq<Report>
    decreases |acts|
  {
    if acts == [] then [] else Receipts(s, acts[0]) + AllReceipts(w, Step(w, s, acts[0]), acts[1..])
  }

  function AllReported(w: Wiring, s: System, acts: seq<Action>): seq<Report>
    decreases |acts|
  {
    if acts == [] then [] else Reported(w, s, acts[0]) + AllReported(w, Step(w, s, acts[0]), acts[1..])
  }

  lemma ReceiptReturns(w: Wiring, s: Shared, pc: Pc, a: Answer, now: real)
    requires Fits(pc, a) && a.Receipt?
    ensures Resume(w, s, pc, a, now).1.Returned?
  {
  }

  lemma StepReports(w: Wiring, s: System, a: Action)
    ensures Reported(w, s, a) == Receipts(s, a)
  {
    if Enabled(s, a) && a.AnswerProtect? {
      var pc := PcOf(s.frames[a.id]).value;
      ResumeShape(w, s, a);
      if Resume(w, s.shared, pc, a.answer, s.now).1.Returned? { AnswersAreTrue(w, s.shared, pc, a.answer, s.now); }
      if a.answer.Receipt? { ReceiptReturns(w, s.shared, pc, a.answer, s.now); }
    } else if Enabled(s, a) && FrameAction(a) {
      OtherShape(w, s, a);
    }
  }

  /** In every run, the transactions that calls answer with are exactly the receipts that arrived, in
      order, each with its borrower and told as a rescue exactly when it succeeded. */
  lemma {:induction false} EveryReceiptIsReported(w: Wiring, s: System, acts: seq<Action>)
    ensures AllReported(w, s, acts) == AllReceipts(w, s, acts)
    decreases |acts|
  {
    if acts != [] {
      StepReports(w, s, acts[0]);
      EveryReceiptIsReported(w, Step(w, s, acts[0]), acts[1..]);
    }
  }

  // ---- Safety over every run ---------------------------------------------------------------

  ghost predicate Inv(w: Wiring, s: System) {
    Exclusive(s) && Wired(w, s) && AllBalanced(s) && InFlightStates(s) && AllCoolDown(s) && Recorded(s)
  }

  lemma {:induction false} RunKeepsInv(w: Wiring, s: System, acts: seq<Action>)
    requires Inv(w, s)
    ensures Inv(w, Run(w, s, acts))
    decreases |acts|
  {
    if acts != [] {
      StepExclusive(w, s, acts[0]);
      StepBalanced(w, s, acts[0]);
      StepInFlightStates(w, s, acts[0]);
      StepCoolsDown(w, s, acts[0]);
      StepRecorded(w, s, acts[0]);
      RunKeepsInv(w, Step(w, s, acts[0]), acts[1..]);
    }
  }

  lemma {:induction false} NothingToCool(s: System)
    requires Initial(s)
    ensures AllCoolDown(s)
  {
  }

  lemma NothingHeld(s: System)
    requires Initial(s)
    ensures Exclusive(s)
  {
  }

  lemma NothingCounted(s: System)
    requires Initial(s)
    ensures AllBalanced(s)
  {
  }

  lemma {:induction false} InitialInv(w: Wiring, s: System)
    requires Initial(s)
    ensures Inv(w, s)
  {
    NothingHeld(s);
    NothingCounted(s);
    NothingToCool(s);
  }

  lemma {:induction false} Reachable(w: Wiring, s: System, acts: seq<Action>)
    requires Initial(s)
    ensures Inv(w, Run(w, s, acts))
  {
    InitialInv(w, s);
    RunKeepsInv(w, s, acts);
  }

  /** However calls, ticks, polls, failures, cancellations and operator actions interleave: the
      locked borrowers are exactly those with a submission outstanding, and no borrower ever has two. */
  lemma {:induction false} NoDoubleSubmission(w: Wiring, s: System, acts: seq<Action>)
    requires Initial(s)
    ensures var t := Run(w, s, acts);
            && (forall b :: b in t.shared.inflight.locked <==> exists id :: Holds(t.frames, id, b))
            && (forall id, id', b :: Holds(t.frames, id, b) && Holds(t.frames, id', b) ==> id == id')
            && (forall b :: b in t.shared.inflight.locked && b in t.shared.states ==>
                  t.shared.states[b] in {Submitted, Declined, Healthy})
  {
    Reachable(w, s, acts);
  }

  lemma {:induction false} LockedCount(locked: set<Address>, ids: set<nat>, frames: map<nat, Frame>)
    requires forall id :: id in ids ==>
               id in frames && At(frames[id], Sub) && PcOf(frames[id]).value.params.borrower in locked
    requires forall b :: b in locked ==> exists id :: id in ids && Holds(frames, id, b)
    requires forall id, id', b :: id in ids && id' in ids && Holds(frames, id, b) && Holds(frames, id', b) ==> id == id'
    ensures |locked| == |ids|
  {
    if ids == {} {
      assert locked == {};
    } else {
      var id :| id in ids;
      var b := PcOf(frames[id]).value.params.borrower;
      assert Holds(frames, id, b);
      forall id' | id' in ids - {id}
        ensures PcOf(frames[id']).value.params.borrower in locked - {b}
      {
        assert Holds(frames, id', PcOf(frames[id']).value.params.borrower);
      }
      LockedCount(locked - {b}, ids - {id}, frames);
    }
  }

  /** Counters obey flow conservation in every reachable state. */
  lemma {:induction false} FlowConservation(w: Wiring, s: System, acts: seq<Action>)
    requires Initial(s)
    ensures var t := Run(w, s, acts);
            var c, e := t.shared.counts, t.ended;
            && c.submitted == c.restored + c.reverted + |t.shared.inflight.locked| + e.subCancelled
            && c.submitted == |t.history| + |t.shared.inflight.locked|
            && c.simulatedOk == e.dryRunOnly + e.race + c.submitted
            && c.assessed == c.declined + e.assessmentOnly + Count(t.frames, Sim) + e.simThrew + e.simCancelled
                             + c.simulatedFail + c.simulatedOk
            && t.entered == c.breakerBlocked + (c.doubleSubmitBlocked - e.race) + Count(t.frames, Eval)
                            + e.evalThrew + e.evalCancelled + c.assessed
            && c.restored == e.rescued && c.reverted == e.txReverted + e.submitThrew
            && c.breakerTripped <= c.reverted
  {
    Reachable(w, s, acts);
    var t := Run(w, s, acts);
    forall b | b in t.shared.inflight.locked
      ensures exists id :: id in Ids(t.frames, Sub) && Holds(t.frames, id, b)
    {
      var id :| Holds(t.frames, id, b);
      assert id in Ids(t.frames, Sub);
    }
    forall id | id in Ids(t.frames, Sub)
      ensures PcOf(t.frames[id]).value.params.borrower in t.shared.inflight.locked
    {
      assert Holds(t.frames, id, PcOf(t.frames[id]).value.params.borrower);
    }
    LockedCount(t.shared.inflight.locked.Keys, Ids(t.frames, Sub), t.frames);
    assert |t.shared.inflight.locked| == |t.shared.inflight.locked.Keys|;
  }

  /** `n` times `c`, as `CooldownsAre` shows. */
  function Cooldowns(n: nat, c: real): real {
    if n == 0 then 0.0 else Cooldowns(n - 1, c) + c
  }

  lemma {:induction false} CooldownsAre(n: nat, c: real)
    ensures Cooldowns(n, c) == n as real * c
  {
    if n > 0 {
      CooldownsAre(n - 1, c);
      var x := (n - 1) as real;
      assert n as real == x + 1.0;
      assert (x + 1.0) * c == x * c + c;
    }
  }

  lemma {:induction false} SpacedSpan(r: seq<Rescue>, i: nat, j: nat, c: real)
    requires Spaced(r) && i < j < |r|
    requires forall k :: 0 <= k < |r| ==> r[k].cooldown >= c
    ensures r[i].end + Cooldowns(j - i, c) <= r[j].start
    decreases j - i
  {
    assert r[j - 1].end + r[j - 1].cooldown <= r[j].start;
    if i + 1 < j { SpacedSpan(r, i, j - 1, c); }
  }

  /** When the borrower's submissions started: the completed ones `r` in order, then the outstanding one. */
  function Starts(r: seq<Rescue>, f: InFlight.State, b: Address): (starts: seq<real>)
    ensures |r| <= |starts| && forall j :: 0 <= j < |r| ==> starts[j] == r[j].start
    ensures |starts| == |r| + One(b in f.locked) && (b in f.locked ==> starts[|r|] == f.locked[b])
  {
    seq(|r|, j requires 0 <= j < |r| => r[j].start) + (if b in f.locked then [f.locked[b]] else [])
  }

  lemma NextStart(r: seq<Rescue>, f: InFlight.State, now: real, b: Address, j: nat)
    requires Cools(r, f, now, b) && 0 < j < |Starts(r, f, b)|
    ensures r[j - 1].start <= r[j - 1].end && r[j - 1].end + r[j - 1].cooldown <= Starts(r, f, b)[j]
  {
  }

  lemma {:induction false} CoolsSpan(r: seq<Rescue>, f: InFlight.State, now: real, b: Address, i: nat, j: nat, c: real)
    requires Cools(r, f, now, b) && i < j < |Starts(r, f, b)|
    requires forall k :: 0 <= k < |r| ==> r[k].cooldown >= c
    ensures r[j - 1].end + r[j - 1].cooldown <= Starts(r, f, b)[j]
    ensures r[i].start <= r[i].end && r[i].end + Cooldowns(j - i, c) <= Starts(r, f, b)[j]
  {
    NextStart(r, f, now, b, j);
    NextStart(r, f, now, b, i + 1);
    if i + 1 < j { SpacedSpan(r, i, j - 1, c); }
  }

  /** In every run, a borrower's next submission, completed or outstanding, starts no earlier than the
      cooldown after the previous one ended; `k` of them therefore span at least `k - 1` cooldowns. */
  lemma {:induction false} CooldownSpacing(w: Wiring, s: System, acts: seq<Action>, b: Address, i: nat, j: nat, c: real)
    requires Initial(s)
    requires var t := Run(w, s, acts);
             var r := Of(t.history, b);
             i < j < |Starts(r, t.shared.inflight, b)| && forall k :: 0 <= k < |r| ==> r[k].cooldown >= c
    ensures var t := Run(w, s, acts);
            var r := Of(t.history, b);
            var starts := Starts(r, t.shared.inflight, b);
            && r[j - 1].end + r[j - 1].cooldown <= starts[j]
            && r[i].start <= r[i].end && r[i].end + Cooldowns(j - i, c) <= starts[j]
  {
    Reachable(w, s, acts);
    var t := Run(w, s, acts);
    assert CoolsDown(t, b);
    CoolsSpan(Of(t.history, b), t.shared.inflight, t.now, b, i, j, c);
  }

  // ---- The breaker under overlap -----------------------------------------------------------

  function Running(frames: map<nat, Frame>): nat {
    Count(frames, Eval) + Count(frames, Sim) + Count(frames, Sub)
  }

  /** With thresholds up to `m` and at most `n` calls overlapping. */
  predicate Limited(b: Breaker.State, running: nat, m: int, n: nat) {
    && b.max <= m
    && (!b.paused ==> b.consecutive < m)
    && (b.paused ==> b.consecutive + running <= m - 1 + n)
  }

  /** Every state of the run has at most `n` calls running, and no threshold above `m` is configured. */
  predicate Within(w: Wiring, s: System, acts: seq<Action>, m: int, n: nat)
    decreases |acts|
  {
    && Running(s.frames) <= n
    && (acts != [] ==>
          (acts[0].SetMax? ==> acts[0].max <= m) && Within(w, Step(w, s, acts[0]), acts[1..], m, n))
  }

  lemma StepLimited(w: Wiring, s: System, a: Action, m: int, n: nat)
    requires m >= 1 && Running(s.frames) <= n && Limited(s.shared.breaker, Running(s.frames), m, n)
    requires a.SetMax? ==> a.max <= m
    ensures Limited(Step(w, s, a).shared.breaker, Running(Step(w, s, a).frames), m, n)
  {
    if Enabled(s, a) && FrameAction(a) {
      CountAll(s.frames, a.id, Segment(w, s, a).1);
      if a.AnswerProtect? {
        ResumeShape(w, s, a);
        ResumeProgress(w, s.shared, PcOf(s.frames[a.id]).value, a.answer, s.now);
      } else {
        OtherShape(w, s, a);
      }
    }
  }

  lemma {:induction false} RunLimited(w: Wiring, s: System, acts: seq<Action>, m: int, n: nat)
    requires m >= 1 && Limited(s.shared.breaker, Running(s.frames), m, n)
    requires Within(w, s, acts, m, n)
    ensures var t := Run(w, s, acts);
            Running(t.frames) <= n && Limited(t.shared.breaker, Running(t.frames), m, n)
    decreases |acts|
  {
    if acts != [] {
      StepLimited(w, s, acts[0], m, n);
      RunLimited(w, Step(w, s, acts[0]), acts[1..], m, n);
    }
  }

  /** While closed the streak is under the threshold. Once paused nothing is admitted until reset, so
      the streak and the calls still running share what was in flight: it never passes `m - 1 + n`,
      and never passes `m` when calls do not overlap. */
  lemma {:induction false} StreakBound(w: Wiring, s: System, acts: seq<Action>, m: int, n: nat)
    requires Initial(s) && m >= 1 && s.shared.breaker.max <= m && Within(w, s, acts, m, n)
    ensures var t := Run(w, s, acts);
            var b := t.shared.breaker;
            && (!b.paused ==> b.consecutive < m)
            && (b.paused ==> b.consecutive + Running(t.frames) <= m - 1 + n)
            && (n == 1 ==> b.consecutive <= m)
  {
    assert forall st :: Ids(s.frames, st) == {};
    RunLimited(w, s, acts, m, n);
  }

  /** The breaker stays paused all along the run. */
  predicate Paused(w: Wiring, s: System, acts: seq<Action>)
    decreases |acts|
  {
    s.shared.breaker.paused && (acts != [] ==> Paused(w, Step(w, s, acts[0]), acts[1..]))
  }

  lemma ResumeSubmits(w: Wiring, s: Shared, pc: Pc, a: Answer, now: real)
    requires Fits(pc, a)
    ensures var (s', o) := Resume(w, s, pc, a, now);
            && s'.counts.submitted == s.counts.submitted + One(o.Suspended? && o.pc.Submitting?)
            && s'.counts.breakerBlocked == s.counts.breakerBlocked
            && (o.Suspended? && o.pc.Submitting? <==> Submits(w, s, pc, a, now))
  {
  }

  /** Resuming this call starts a submission: the breaker is not asked. */
  predicate Submits(w: Wiring, s: Shared, pc: Pc, a: Answer, now: real) {
    pc.Simulating? && a.Simulated? && a.sim.success && w.submitter && InFlight.CanStart(s.inflight, pc.params.borrower, now)
  }

  lemma ResumeStarts(w: Wiring, s: System, a: Action)
    requires Enabled(s, a) && a.AnswerProtect?
    ensures Step(w, s, a).shared.counts.submitted
         == s.shared.counts.submitted + One(Submits(w, s.shared, PcOf(s.frames[a.id]).value, a.answer, s.now))
  {
    ResumeShape(w, s, a);
    ResumeSubmits(w, s.shared, PcOf(s.frames[a.id]).value, a.answer, s.now);
  }

  /** A submission starts in exactly one way, whatever the breaker says: a call admitted earlier comes
      back from a successful dry-run, the keeper can submit, and the borrower is neither in flight nor
      cooling down. */
  lemma SubmissionStartsWhen(w: Wiring, s: System, a: Action)
    ensures Step(w, s, a).shared.counts.submitted
         == s.shared.counts.submitted
            + One(Enabled(s, a) && a.AnswerProtect?
                  && Submits(w, s.shared, PcOf(s.frames[a.id]).value, a.answer, s.now))
  {
    if Enabled(s, a) && a.AnswerProtect? {
      ResumeStarts(w, s, a);
    } else if Enabled(s, a) && FrameAction(a) {
      OtherStep(w, s, a);
    }
  }

  /** Submissions started, and those that calls admitted so far may still start. */
  function Due(s: System): int {
    s.shared.counts.submitted + Count(s.frames, Eval) + Count(s.frames, Sim)
  }

  /** The calls turned away at the breaker are all that came in between `s` and `t`. */
  predicate TurnsAway(s: System, t: System) {
    t.entered - s.entered == t.shared.counts.breakerBlocked - s.shared.counts.breakerBlocked
  }

  lemma ResumeDrains(w: Wiring, s: System, a: Action)
    requires Enabled(s, a) && a.AnswerProtect?
    ensures Due(Step(w, s, a)) <= Due(s) && TurnsAway(s, Step(w, s, a))
  {
    CountAll(s.frames, a.id, Segment(w, s, a).1);
    ResumeShape(w, s, a);
    ResumeProgress(w, s.shared, PcOf(s.frames[a.id]).value, a.answer, s.now);
    ResumeSubmits(w, s.shared, PcOf(s.frames[a.id]).value, a.answer, s.now);
  }

  lemma OtherDrains(w: Wiring, s: System, a: Action)
    requires s.shared.breaker.paused && Enabled(s, a) && FrameAction(a) && !a.AnswerProtect?
    ensures Due(Step(w, s, a)) <= Due(s) && TurnsAway(s, Step(w, s, a))
  {
    CountAll(s.frames, a.id, Segment(w, s, a).1);
    OtherShape(w, s, a);
  }

  lemma StepDrains(w: Wiring, s: System, a: Action)
    requires s.shared.breaker.paused
    ensures Due(Step(w, s, a)) <= Due(s) && TurnsAway(s, Step(w, s, a))
  {
    if Enabled(s, a) && a.AnswerProtect? {
      ResumeDrains(w, s, a);
    } else if Enabled(s, a) && FrameAction(a) {
      OtherDrains(w, s, a);
    }
  }

  /** A paused keeper still finishes what it had admitted, and nothing else: as long as nobody resets
      it, every call that comes in is turned away by the breaker, and it starts no more submissions
      than there were admitted calls that had not submitted. */
  lemma {:induction false} PausedDrains(w: Wiring, s: System, acts: seq<Action>)
    requires Paused(w, s, acts)
    ensures Due(Run(w, s, acts)) <= Due(s) && TurnsAway(s, Run(w, s, acts))
    decreases |acts|
  {
    if acts != [] {
      StepDrains(w, s, acts[0]);
      PausedDrains(w, Step(w, s, acts[0]), acts[1..]);
    }
  }

  // ---- What pausing does not do ------------------------------------------------------------

  lemma Admit(w: Wiring, s: System, id: nat, p: RiskParams)
    requires id !in s.frames && !s.shared.breaker.paused
    requires p.borrower !in s.shared.inflight.locked && p.borrower !in s.shared.inflight.cooldownUntil
    ensures var t := Step(w, s, CallProtect(id, p, ""));
            && t.frames == s.frames[id := Api(Evaluating(p, ""))]
            && t.shared.inflight == s.shared.inflight && t.shared.breaker == s.shared.breaker
            && t.shared.counts == s.shared.counts
  {
  }

  lemma ClearsPipeline(w: Wiring, s: System, id: nat, p: RiskParams, r: AssessmentResponse, plan: RescuePlan)
    requires id in s.frames && s.frames[id] == Api(Evaluating(p, "")) && w.simulator && r.viable
    ensures var t := Step(w, s, AnswerProtect(id, Evaluated(r, Some(plan))));
            && t.frames == s.frames[id := Api(Simulating(p, "", r, plan))]
            && t.shared.inflight == s.shared.inflight && t.shared.breaker == s.shared.breaker
            && t.shared.counts.submitted == s.shared.counts.submitted
  {
  }

  lemma ClearsDryRun(w: Wiring, s: System, id: nat, p: RiskParams, r: AssessmentResponse, plan: RescuePlan, sim: SimulationResult)
    requires id in s.frames && s.frames[id] == Api(Simulating(p, "", r, plan)) && w.submitter && sim.success
    requires p.borrower !in s.shared.inflight.locked && p.borrower !in s.shared.inflight.cooldownUntil
    ensures var t := Step(w, s, AnswerProtect(id, Simulated(sim, plan)));
            && t.frames == s.frames[id := Api(Submitting(p, "", r, plan, sim))]
            && t.shared.inflight == InFlight.Lock(s.shared.inflight, p.borrower, s.now)
            && t.shared.breaker == s.shared.breaker
            && t.shared.counts.submitted == s.shared.counts.submitted + 1
  {
  }

  lemma ComesBackReverted(w: Wiring, s: System, id: nat, p: RiskParams, r: AssessmentResponse, plan: RescuePlan,
                 sim: SimulationResult, sub: SubmissionResult)
    requires id in s.frames && s.frames[id] == Api(Submitting(p, "", r, plan, sim)) && sub.status != 1
    ensures var t := Step(w, s, AnswerProtect(id, Receipt(sub)));
            && t.frames == s.frames - {id} && t.now == s.now
            && t.shared.inflight == InFlight.Release(s.shared.inflight, p.borrower, s.now)
            && t.shared.breaker == Breaker.Failure(s.shared.breaker)
            && t.shared.counts.submitted == s.shared.counts.submitted
  {
  }

  /** The breaker is consulted on entry only. Two overlapping calls on any two borrowers, both
      reverting, show that a submission can start while the breaker is paused and that the streak can
      pass the threshold: at threshold 1 with two calls, `StreakBound`'s limit of 2 is reached. */
  lemma PausedStillSubmits(w: Wiring, s: System, p: RiskParams, q: RiskParams, r: AssessmentResponse,
                           plan: RescuePlan, sim: SimulationResult, sub: SubmissionResult)
    requires Initial(s) && s.shared.breaker.max == 1 && w == Wiring(true, true)
    requires p.borrower != q.borrower && r.viable && sim.success && sub.status != 1
    ensures var s6 := Run(w, s, [CallProtect(0, p, ""), CallProtect(1, q, ""),
                                 AnswerProtect(0, Evaluated(r, Some(plan))), AnswerProtect(1, Evaluated(r, Some(plan))),
                                 AnswerProtect(0, Simulated(sim, plan)), AnswerProtect(0, Receipt(sub))]);
            var s7 := Step(w, s6, AnswerProtect(1, Simulated(sim, plan)));
            var s8 := Step(w, s7, AnswerProtect(1, Receipt(sub)));
            && s6.shared.breaker.paused && s7.shared.breaker.paused
            && s7.shared.counts.submitted == s6.shared.counts.submitted + 1
            && s8.shared.breaker.consecutive == 2
  {
    var a1, a2 := CallProtect(0, p, ""), CallProtect(1, q, "");
    var a3, a4 := AnswerProtect(0, Evaluated(r, Some(plan))), AnswerProtect(1, Evaluated(r, Some(plan)));
    var a5, a6 := AnswerProtect(0, Simulated(sim, plan)), AnswerProtect(0, Receipt(sub));
    var s1 := Step(w, s, a1);
    Admit(w, s, 0, p);
    var s2 := Step(w, s1, a2);
    Admit(w, s1, 1, q);
    var s3 := Step(w, s2, a3);
    ClearsPipeline(w, s2, 0, p, r, plan);
    var s4 := Step(w, s3, a4);
    ClearsPipeline(w, s3, 1, q, r, plan);
    var s5 := Step(w, s4, a5);
    ClearsDryRun(w, s4, 0, p, r, plan, sim);
    var s6 := Step(w, s5, a6);
    ComesBackReverted(w, s5, 0, p, r, plan, sim, sub);
    var s7 := Step(w, s6, AnswerProtect(1, Simulated(sim, plan)));
    ClearsDryRun(w, s6, 1, q, r, plan, sim);
    ComesBackReverted(w, s7, 1, q, r, plan, sim, sub);
    RunSix(w, s, a1, a2, a3, a4, a5, a6);
  }

  lemma {:induction false} RunSix(w: Wiring, s: System, a1: Action, a2: Action, a3: Action, a4: Action, a5: Action, a6: Action)
    ensures Run(w, s, [a1, a2, a3, a4, a5, a6])
         == Step(w, Step(w, Step(w, Step(w, Step(w, Step(w, s, a1), a2), a3), a4), a5), a6)
  {
    RunCons(w, s, a1, [a2, a3, a4, a5, a6]);
    RunCons(w, Step(w, s, a1), a2, [a3, a4, a5, a6]);
    RunCons(w, Step(w, Step(w, s, a1), a2), a3, [a4, a5, a6]);
    var t := Step(w, Step(w, Step(w, s, a1), a2), a3);
    RunCons(w, t, a4, [a5, a6]);
    RunCons(w, Step(w, t, a4), a5, [a6]);
    RunCons(w, Step(w, Step(w, t, a4), a5), a6, []);
  }

  lemma {:induction false} RunCons(w: Wiring, s: System, a: Action, rest: seq<Action>)
    ensures Run(w, s, [a] + rest) == Run(w, Step(w, s, a), rest)
  {
  }
}
